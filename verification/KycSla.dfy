/**
 The two review clocks of a KYC submission - with the field, then with Gifsy - as the list shows them
 and as the dashboard counts them.
 */
module KycSla {
  import opened Prelude
  import opened Calendar
  import opened BusinessHours
  import opened KycBuckets

  datatype Stage = FieldStage | GifsyStage | Decided | NoStage

  const FIELD_STATUSES := {SUBMITTED, UNDER_REVIEW, PENDING_PENNY_DROP, PENDING_AGREEMENT,
                           PENDING_SO_APPROVAL, PENDING_ASM_APPROVAL, PENDING_RSM_APPROVAL}

  function KycStageOf(s: KycStatus): Stage {
    if s == PENDING_GIFSY then GifsyStage
    else if s in FIELD_STATUSES then FieldStage
    else if s in {APPROVED, REJECTED, RESUBMISSION_REQUIRED, RE_KYC_REQUIRED} then Decided
    else NoStage
  }

  datatype Entry = Entry(toStatus: KycStatus, at: Time)

  datatype Submission = Submission(
    status: KycStatus, submittedAt: Option<Time>, createdAt: Time, history: seq<Entry>,
    approvedAt: Option<Time>, reviewedAt: Option<Time>, updatedAt: Option<Time>)

  datatype Targets = Targets(fieldHrs: nat, gifsyHrs: nat)

  datatype Sla = NoClock | Clock(onGifsy: bool, ageHrs: int, targetHrs: nat, breached: bool, frozen: bool)

  // ---- The entry into the Gifsy queue ---------------------------------------------------------------

  /** The latest entry into the queue. */
  function LatestEntry(history: seq<Entry>): (latest: Option<Time>)
    ensures latest.None? ==> forall h | h in history :: h.toStatus != PENDING_GIFSY
    ensures latest.Some? ==> Entry(PENDING_GIFSY, latest.value) in history
    ensures latest.Some? ==> forall h | h in history && h.toStatus == PENDING_GIFSY :: h.at <= latest.value
  {
    if history == [] then None
    else
      var before, h := LatestEntry(history[..|history| - 1]), history[|history| - 1];
      assert history == history[..|history| - 1] + [h];
      if h.toStatus != PENDING_GIFSY || (before.Some? && h.at <= before.value) then before
      else
        assert h == Entry(PENDING_GIFSY, h.at);
        Some(h.at)
  }

  method LatestGifsyEntry(history: seq<Entry>) returns (latest: Option<Time>)
    ensures latest == LatestEntry(history)
  {
    latest := None;
    for i := 0 to |history|
      invariant latest == LatestEntry(history[..i])
    {
      assert history[..i + 1][..i] == history[..i];
      if history[i].toStatus == PENDING_GIFSY && (latest.None? || history[i].at > latest.value) {
        latest := Some(history[i].at);
      }
    }
    assert history[..|history|] == history;
  }

  // ---- The clock of the list --------------------------------------------------------------------------

  /** Hours from milliseconds, rounded half up. */
  function RoundHours(ms: nat): nat { (2 * ms + HOUR_MS) / (2 * HOUR_MS) }

  function Or<T>(a: Option<T>, b: Option<T>): Option<T> { if a.Some? then a else b }

  function StartOf(s: Submission, entered: Option<Time>, onGifsy: bool): Option<Time> {
    if onGifsy then Or(entered, s.submittedAt) else s.submittedAt
  }

  function OnGifsy(s: Submission, entered: Option<Time>): bool {
    KycStageOf(s.status).GifsyStage? || (KycStageOf(s.status).Decided? && entered.Some?)
  }

  /** A decided submission stops at its decision, a live one runs on. */
  function EndOf(s: Submission, now: Time): Time {
    var decision := Or(s.approvedAt, Or(s.reviewedAt, s.updatedAt));
    if KycStageOf(s.status).Decided? && decision.Some? then decision.value else now
  }

  function SlaOf(s: Submission, targets: Targets, holidays: set<string>, now: Time): Sla
  {
    var stage := KycStageOf(s.status);
    if stage.NoStage? then NoClock
    else
      var entered := LatestEntry(s.history);
      var onGifsy := OnGifsy(s, entered);
      var target := if onGifsy then targets.gifsyHrs else targets.fieldHrs;
      var start := StartOf(s, entered, onGifsy);
      if start.None? then Clock(onGifsy, 0, target, false, stage.Decided?)
      else
        var age := RoundHours(RunningMs(start.value, EndOf(s, now), holidays));
        Clock(onGifsy, age, target, age > target, stage.Decided?)
  }

  // ---- The clock of the list, in the source's words -----------------------------------------------------

  const WITH_FIELD := {SUBMITTED, UNDER_REVIEW, PENDING_PENNY_DROP, PENDING_AGREEMENT, PENDING_SO_APPROVAL,
                       PENDING_ASM_APPROVAL, PENDING_RSM_APPROVAL}
  const DECIDED := {APPROVED, REJECTED, RESUBMISSION_REQUIRED, RE_KYC_REQUIRED}

  /** `at` is when the submission came to the Gifsy queue for the last time. */
  predicate LastCame(history: seq<Entry>, at: Time) {
    Entry(PENDING_GIFSY, at) in history && forall h | h in history && h.toStatus == PENDING_GIFSY :: h.at <= at
  }

  predicate EverCame(history: seq<Entry>) { exists h :: h in history && h.toStatus == PENDING_GIFSY }

  /** With Gifsy, or decided after having been there. */
  predicate CountsForGifsy(s: Submission) {
    s.status == PENDING_GIFSY || (s.status in DECIDED && EverCame(s.history))
  }

  /** The clock starts when the submission last came to Gifsy, if that is what it counts and it is recorded, else
      when it was submitted. */
  predicate StartsAt(s: Submission, start: Time) {
    if CountsForGifsy(s) && EverCame(s.history) then LastCame(s.history, start) else s.submittedAt == Some(start)
  }

  /** A decided submission stops at its approval, else at its review, else at its last change; anything else, and
      a decision without a time, runs to now. */
  predicate EndsAt(s: Submission, now: Time, end: Time) {
    if s.status !in DECIDED then end == now
    else if s.approvedAt.Some? then end == s.approvedAt.value
    else if s.reviewedAt.Some? then end == s.reviewedAt.value
    else if s.updatedAt.Some? then end == s.updatedAt.value
    else end == now
  }

  /** Whole hours, half an hour and more rounded up. */
  predicate RoundsTo(ms: int, hours: int) { (2 * hours - 1) * 1_800_000 <= ms < (2 * hours + 1) * 1_800_000 }

  /** The clock a submission shows. */
  ghost predicate ShowsClock(s: Submission, targets: Targets, holidays: set<string>, now: Time, sla: Sla) {
    if s.status !in WITH_FIELD + DECIDED + {PENDING_GIFSY} then sla == NoClock
    else
      && sla.Clock? && sla.onGifsy == CountsForGifsy(s) && sla.frozen == (s.status in DECIDED)
      && sla.targetHrs == (if CountsForGifsy(s) then targets.gifsyHrs else targets.fieldHrs)
      && sla.breached == (sla.ageHrs > sla.targetHrs)
      && ((forall start :: !StartsAt(s, start)) ==> sla.ageHrs == 0)
      && forall start, end | StartsAt(s, start) && EndsAt(s, now, end) ::
           RoundsTo(RunningMs(start, end, holidays), sla.ageHrs)
  }

  lemma LatestIsLast(history: seq<Entry>)
    ensures EverCame(history) <==> LatestEntry(history).Some?
    ensures forall at :: LastCame(history, at) <==> LatestEntry(history) == Some(at)
  {
    var latest := LatestEntry(history);
    if latest.Some? { assert Entry(PENDING_GIFSY, latest.value).toStatus == PENDING_GIFSY; }
  }

  lemma RoundingIs(ms: nat)
    ensures RoundsTo(ms, RoundHours(ms))
  {
  }

  /** The clock has no other outcome. */
  lemma SlaShowsClock(s: Submission, targets: Targets, holidays: set<string>, now: Time)
    ensures ShowsClock(s, targets, holidays, now, SlaOf(s, targets, holidays, now))
  {
    LatestIsLast(s.history);
    if !KycStageOf(s.status).NoStage? {
      assert OnGifsy(s, LatestEntry(s.history)) <==> CountsForGifsy(s);
      assert EndsAt(s, now, EndOf(s, now));
      var start := ClockStart(s);
      forall t ensures StartsAt(s, t) <==> start == Some(t) {}
      if start.Some? { RoundingIs(RunningMs(start.value, EndOf(s, now), holidays)); }
    }
  }

  method KycStageSla(s: Submission, targets: Targets, holidays: set<string>, now: Time) returns (sla: Sla)
    ensures sla == SlaOf(s, targets, holidays, now)
    ensures ShowsClock(s, targets, holidays, now, sla)
  {
    SlaShowsClock(s, targets, holidays, now);
    var entered := LatestGifsyEntry(s.history);
    var stage := KycStageOf(s.status);
    if stage.NoStage? { return NoClock; }
    var onGifsy := OnGifsy(s, entered);
    var target := if onGifsy then targets.gifsyHrs else targets.fieldHrs;
    var start := StartOf(s, entered, onGifsy);
    if start.None? { return Clock(onGifsy, 0, target, false, stage.Decided?); }
    var ms := BusinessMsBetween(start.value, EndOf(s, now), holidays);
    var age := RoundHours(ms);
    return Clock(onGifsy, age, target, age > target, stage.Decided?);
  }

  /** Rounded hours exceed a whole target exactly from half an hour past it. */
  lemma RoundedBreach(ms: nat, target: nat)
    ensures RoundHours(ms) > target <==> 2 * ms >= (2 * target + 1) * HOUR_MS
  {
  }

  predicate Breached(s: Submission, targets: Targets, holidays: set<string>, now: Time) {
    SlaOf(s, targets, holidays, now).Clock? && SlaOf(s, targets, holidays, now).breached
  }

  function ClockStart(s: Submission): Option<Time> {
    StartOf(s, LatestEntry(s.history), OnGifsy(s, LatestEntry(s.history)))
  }

  predicate Pending(s: Submission) { KycStageOf(s.status) in {FieldStage, GifsyStage} }

  lemma CountGrows(start: Time, end: Time, later: Time, holidays: set<string>)
    requires end <= later
    ensures RunningMs(start, end, holidays) <= RunningMs(start, later, holidays)
  {
    if start <= end { CountIsMonotone(start, end, later, holidays); }
  }

  /** Once breached, a submission stays breached as time goes by, whatever the holidays. */
  lemma BreachStays(s: Submission, targets: Targets, holidays: set<string>, now: Time, later: Time)
    requires now <= later && Breached(s, targets, holidays, now)
    ensures Breached(s, targets, holidays, later)
  {
    var start := ClockStart(s).value;
    var target := if OnGifsy(s, LatestEntry(s.history)) then targets.gifsyHrs else targets.fieldHrs;
    CountGrows(start, EndOf(s, now), EndOf(s, later), holidays);
    RoundedBreach(RunningMs(start, EndOf(s, now), holidays), target);
    RoundedBreach(RunningMs(start, EndOf(s, later), holidays), target);
  }

  /** A decided submission is frozen: once a decision time is recorded, nothing changes any more. */
  lemma DecisionFreezes(s: Submission, targets: Targets, holidays: set<string>, now: Time, later: Time)
    requires KycStageOf(s.status).Decided? && Or(s.approvedAt, Or(s.reviewedAt, s.updatedAt)).Some?
    ensures SlaOf(s, targets, holidays, now) == SlaOf(s, targets, holidays, later)
  {
  }

  /** Coming back to the Gifsy queue restarts its clock. */
  lemma ReentryRestarts(s: Submission, t: Time)
    requires s.status == PENDING_GIFSY
    requires forall h | h in s.history && h.toStatus == PENDING_GIFSY :: h.at <= t
    ensures ClockStart(s.(history := s.history + [Entry(PENDING_GIFSY, t)])) == Some(t)
  {
    var again := s.history + [Entry(PENDING_GIFSY, t)];
    assert Entry(PENDING_GIFSY, t) in again;
    assert forall h | h in again :: h in s.history || h == Entry(PENDING_GIFSY, t);
  }

  // ---- The clock of the dashboard -----------------------------------------------------------------------

  /** The dashboard starts a clock at creation when nothing else is known. */
  function DashStart(s: Submission): Time {
    var start := ClockStart(s);
    if start.Some? then start.value else s.createdAt
  }

  function TargetMs(s: Submission, targets: Targets): int {
    (if KycStageOf(s.status).GifsyStage? then targets.gifsyHrs else targets.fieldHrs) * HOUR_MS
  }

  function DashAge(s: Submission, holidays: set<string>, now: Time): nat {
    RunningMs(DashStart(s), now, holidays)
  }

  predicate DashBreached(s: Submission, targets: Targets, holidays: set<string>, now: Time) {
    DashAge(s, holidays, now) > TargetMs(s, targets)
  }

  /** The list and the dashboard disagree about a pending submission if and only if its age lies strictly
      between the target and the target plus half an hour - or, when the list has no start to count from,
      anywhere past the target.  Then it is always the dashboard that says "breached". */
  lemma ListAndDashboardDisagreeIff(s: Submission, targets: Targets, holidays: set<string>, now: Time)
    requires Pending(s)
    ensures var age, target := DashAge(s, holidays, now), TargetMs(s, targets);
      Breached(s, targets, holidays, now) != DashBreached(s, targets, holidays, now) <==>
        age > target &&
        (2 * age < 2 * target + HOUR_MS || ClockStart(s).None?)
    ensures Breached(s, targets, holidays, now) ==>
      DashBreached(s, targets, holidays, now)
  {
    var hours := if KycStageOf(s.status).GifsyStage? then targets.gifsyHrs else targets.fieldHrs;
    RoundedBreach(DashAge(s, holidays, now), hours);
  }

  // ---- The dashboard's loop -------------------------------------------------------------------------------

  datatype Label = LNotStarted | LInProgress | LField | LGifsy | LApproved | LRejected | LReUpload

  /** The stage an outlet shows on the dashboard, from its latest submission. */
  function DeriveKycStage(latest: Option<KycStatus>): Label {
    if latest.None? then LNotStarted
    else if latest.value == APPROVED then LApproved
    else if latest.value == PENDING_GIFSY then LGifsy
    else if latest.value in FIELD_STATUSES then LField
    else if latest.value in {REJECTED, RE_UPLOAD_REQUIRED, RESUBMISSION_REQUIRED, RE_KYC_REQUIRED, SUSPENDED}
    then (if latest.value == REJECTED then LRejected else LReUpload)
    else if latest.value == DRAFT then LInProgress
    else LNotStarted
  }

  function LabelOf(s: Option<Submission>): Label {
    DeriveKycStage(if s.Some? then Some(s.value.status) else None)
  }

  /** What the dashboard counts: outlets with a label, and pending ones within or past their target. */
  datatype Kind = Shows(stage: Label) | IsPending(onGifsy: bool, late: bool)

  datatype Terms = Terms(targets: Targets, holidays: set<string>, now: Time)

  predicate Meets(k: Kind, o: Option<Submission>, terms: Terms) {
    match k
    case Shows(stage) => LabelOf(o) == stage
    case IsPending(onGifsy, late) =>
      o.Some? && KycStageOf(o.value.status) == (if onGifsy then GifsyStage else FieldStage) &&
      DashBreached(o.value, terms.targets, terms.holidays, terms.now) == late
  }

  function Count(outlets: seq<Option<Submission>>, k: Kind, terms: Terms): nat {
    if outlets == [] then 0
    else Count(outlets[..|outlets| - 1], k, terms) + if Meets(k, outlets[|outlets| - 1], terms) then 1 else 0
  }

  datatype Tally = Tally(
    approved: nat, gifsy: nat, field: nat, rejectedOrReupload: nat, rejected: nat, inProgress: nat,
    notStarted: nat, fieldWithin: nat, fieldBreached: nat, gifsyWithin: nat, gifsyBreached: nat)

  predicate LabelTallies(t: Tally, outlets: seq<Option<Submission>>, terms: Terms) {
    && t.approved == Count(outlets, Shows(LApproved), terms)
    && t.gifsy == Count(outlets, Shows(LGifsy), terms)
    && t.field == Count(outlets, Shows(LField), terms)
    && t.rejected == Count(outlets, Shows(LRejected), terms)
    && t.rejectedOrReupload == t.rejected + Count(outlets, Shows(LReUpload), terms)
    && t.inProgress == Count(outlets, Shows(LInProgress), terms)
    && t.notStarted == Count(outlets, Shows(LNotStarted), terms)
  }

  predicate LateTallies(t: Tally, outlets: seq<Option<Submission>>, terms: Terms) {
    && t.fieldWithin == Count(outlets, IsPending(false, false), terms)
    && t.fieldBreached == Count(outlets, IsPending(false, true), terms)
    && t.gifsyWithin == Count(outlets, IsPending(true, false), terms)
    && t.gifsyBreached == Count(outlets, IsPending(true, true), terms)
  }

  predicate Tallies(t: Tally, outlets: seq<Option<Submission>>, terms: Terms) {
    LabelTallies(t, outlets, terms) && LateTallies(t, outlets, terms)
  }

  /** Every outlet is in one bucket, and every pending one within or past its target. */
  predicate Adds(t: Tally, n: nat) {
    && t.approved + t.gifsy + t.field + t.rejectedOrReupload + t.inProgress + t.notStarted == n
    && t.fieldWithin + t.fieldBreached == t.field
    && t.gifsyWithin + t.gifsyBreached == t.gifsy
  }

  function WithLabel(t: Tally, stage: Label): Tally {
    match stage
    case LApproved => t.(approved := t.approved + 1)
    case LGifsy => t.(gifsy := t.gifsy + 1)
    case LField => t.(field := t.field + 1)
    case LRejected => t.(rejectedOrReupload := t.rejectedOrReupload + 1, rejected := t.rejected + 1)
    case LReUpload => t.(rejectedOrReupload := t.rejectedOrReupload + 1)
    case LInProgress => t.(inProgress := t.inProgress + 1)
    case LNotStarted => t.(notStarted := t.notStarted + 1)
  }

  /** The counters after one more outlet. */
  function Counted(t: Tally, o: Option<Submission>, terms: Terms): Tally {
    var t1 := WithLabel(t, LabelOf(o));
    if Meets(IsPending(false, false), o, terms) then t1.(fieldWithin := t.fieldWithin + 1)
    else if Meets(IsPending(false, true), o, terms) then t1.(fieldBreached := t.fieldBreached + 1)
    else if Meets(IsPending(true, false), o, terms) then t1.(gifsyWithin := t.gifsyWithin + 1)
    else if Meets(IsPending(true, true), o, terms) then t1.(gifsyBreached := t.gifsyBreached + 1)
    else t1
  }

  lemma CountAppend(outlets: seq<Option<Submission>>, o: Option<Submission>, k: Kind, terms: Terms)
    ensures Count(outlets + [o], k, terms) == Count(outlets, k, terms) + if Meets(k, o, terms) then 1 else 0
  {
    assert (outlets + [o])[..|outlets|] == outlets;
  }

  lemma LabelsMeet(o: Option<Submission>, terms: Terms)
    ensures Meets(IsPending(false, false), o, terms) || Meets(IsPending(false, true), o, terms) <==>
      LabelOf(o).LField?
    ensures Meets(IsPending(true, false), o, terms) || Meets(IsPending(true, true), o, terms) <==>
      LabelOf(o).LGifsy?
  {
  }

  lemma CountedLabels(t: Tally, outlets: seq<Option<Submission>>, o: Option<Submission>, terms: Terms)
    requires LabelTallies(t, outlets, terms)
    ensures LabelTallies(Counted(t, o, terms), outlets + [o], terms)
  {
    forall stage { CountAppend(outlets, o, Shows(stage), terms); }
  }

  lemma CountedLate(t: Tally, outlets: seq<Option<Submission>>, o: Option<Submission>, terms: Terms)
    requires LateTallies(t, outlets, terms)
    ensures LateTallies(Counted(t, o, terms), outlets + [o], terms)
  {
    CountAppend(outlets, o, IsPending(false, false), terms);
    CountAppend(outlets, o, IsPending(false, true), terms);
    CountAppend(outlets, o, IsPending(true, false), terms);
    CountAppend(outlets, o, IsPending(true, true), terms);
  }

  lemma CountedAdds(t: Tally, n: nat, o: Option<Submission>, terms: Terms)
    requires Adds(t, n)
    ensures Adds(Counted(t, o, terms), n + 1)
  {
    LabelsMeet(o, terms);
  }

  /** Whether a pending submission is past its target. */
  method PastTarget(s: Submission, terms: Terms) returns (late: bool)
    requires Pending(s)
    ensures late == DashBreached(s, terms.targets, terms.holidays, terms.now)
  {
    if s.status == PENDING_GIFSY {
      var entered := LatestGifsyEntry(s.history);
      var start := if entered.Some? then entered.value
                   else if s.submittedAt.Some? then s.submittedAt.value else s.createdAt;
      var age := BusinessMsBetween(start, terms.now, terms.holidays);
      return age > terms.targets.gifsyHrs * HOUR_MS;
    }
    var start := if s.submittedAt.Some? then s.submittedAt.value else s.createdAt;
    var age := BusinessMsBetween(start, terms.now, terms.holidays);
    return age > terms.targets.fieldHrs * HOUR_MS;
  }

  /** One outlet's turn. */
  method CountOutlet(t: Tally, o: Option<Submission>, terms: Terms) returns (t': Tally)
    ensures t' == Counted(t, o, terms)
  {
    t' := WithLabel(t, LabelOf(o));
    if o.Some? && Pending(o.value) {
      var late := PastTarget(o.value, terms);
      if o.value.status == PENDING_GIFSY {
        if late { t' := t'.(gifsyBreached := t'.gifsyBreached + 1); }
        else { t' := t'.(gifsyWithin := t'.gifsyWithin + 1); }
      } else {
        if late { t' := t'.(fieldBreached := t'.fieldBreached + 1); }
        else { t' := t'.(fieldWithin := t'.fieldWithin + 1); }
      }
    }
  }

  // ---- The dashboard, by status ---------------------------------------------------------------------------

  /** The outlets whose latest submission has one of these statuses. */
  function WithStatus(outlets: seq<Option<Submission>>, statuses: set<KycStatus>): set<nat> {
    set i | 0 <= i < |outlets| && outlets[i].Some? && outlets[i].value.status in statuses
  }

  function WithoutSubmission(outlets: seq<Option<Submission>>): set<nat> {
    set i | 0 <= i < |outlets| && outlets[i].None?
  }

  /** The age of a pending submission: with Gifsy from when it last came there, else from when it was submitted,
      else from when it was created. */
  predicate AgesFrom(s: Submission, start: Time) {
    if s.status == PENDING_GIFSY && EverCame(s.history) then LastCame(s.history, start)
    else if s.submittedAt.Some? then start == s.submittedAt.value else start == s.createdAt
  }

  /** The outlets whose submission has one of these statuses and is past so many hours. */
  ghost function PastHours(outlets: seq<Option<Submission>>, statuses: set<KycStatus>, hours: nat, terms: Terms): set<nat> {
    set i | i in WithStatus(outlets, statuses) && IsPast(outlets[i].value, hours, terms)
  }

  ghost predicate IsPast(s: Submission, hours: nat, terms: Terms) {
    exists start :: AgesFrom(s, start) && RunningMs(start, terms.now, terms.holidays) > hours * 3_600_000
  }

  lemma DashStartIs(s: Submission, start: Time)
    requires Pending(s)
    ensures AgesFrom(s, start) <==> start == DashStart(s)
  {
    LatestIsLast(s.history);
  }

  /** What every counter counts. */
  ghost predicate CountsByStatus(t: Tally, outlets: seq<Option<Submission>>, terms: Terms) {
    var field, gifsy := terms.targets.fieldHrs, terms.targets.gifsyHrs;
    && t.approved == |WithStatus(outlets, {APPROVED})|
    && t.gifsy == |WithStatus(outlets, {PENDING_GIFSY})|
    && t.field == |WithStatus(outlets, WITH_FIELD)|
    && t.rejected == |WithStatus(outlets, {REJECTED})|
    && t.rejectedOrReupload == |WithStatus(outlets, {REJECTED, RE_UPLOAD_REQUIRED, RESUBMISSION_REQUIRED,
                                                     RE_KYC_REQUIRED, SUSPENDED})|
    && t.inProgress == |WithStatus(outlets, {DRAFT})|
    && t.notStarted == |WithStatus(outlets, {NOT_INTERESTED}) + WithoutSubmission(outlets)|
    && t.fieldBreached == |PastHours(outlets, WITH_FIELD, field, terms)|
    && t.fieldWithin == |WithStatus(outlets, WITH_FIELD) - PastHours(outlets, WITH_FIELD, field, terms)|
    && t.gifsyBreached == |PastHours(outlets, {PENDING_GIFSY}, gifsy, terms)|
    && t.gifsyWithin == |WithStatus(outlets, {PENDING_GIFSY}) - PastHours(outlets, {PENDING_GIFSY}, gifsy, terms)|
  }

  /** The outlets of one kind. */
  function OfKind(outlets: seq<Option<Submission>>, k: Kind, terms: Terms): set<nat> {
    set i | 0 <= i < |outlets| && Meets(k, outlets[i], terms)
  }

  lemma {:induction false} CountIsSize(outlets: seq<Option<Submission>>, k: Kind, terms: Terms)
    ensures Count(outlets, k, terms) == |OfKind(outlets, k, terms)|
  {
    if outlets == [] {
      assert OfKind(outlets, k, terms) == {};
    } else {
      var before, n := outlets[..|outlets| - 1], |outlets| - 1;
      CountIsSize(before, k, terms);
      assert OfKind(outlets, k, terms) == OfKind(before, k, terms) + if Meets(k, outlets[n], terms) then {n} else {};
    }
  }

  lemma KindsAreStatuses(outlets: seq<Option<Submission>>, terms: Terms)
    ensures OfKind(outlets, Shows(LApproved), terms) == WithStatus(outlets, {APPROVED})
    ensures OfKind(outlets, Shows(LGifsy), terms) == WithStatus(outlets, {PENDING_GIFSY})
    ensures OfKind(outlets, Shows(LField), terms) == WithStatus(outlets, WITH_FIELD)
    ensures OfKind(outlets, Shows(LRejected), terms) == WithStatus(outlets, {REJECTED})
    ensures OfKind(outlets, Shows(LReUpload), terms) ==
      WithStatus(outlets, {RE_UPLOAD_REQUIRED, RESUBMISSION_REQUIRED, RE_KYC_REQUIRED, SUSPENDED})
    ensures OfKind(outlets, Shows(LInProgress), terms) == WithStatus(outlets, {DRAFT})
    ensures OfKind(outlets, Shows(LNotStarted), terms) ==
      WithStatus(outlets, {NOT_INTERESTED}) + WithoutSubmission(outlets)
  {
  }

  lemma LateKinds(outlets: seq<Option<Submission>>, terms: Terms)
    ensures var past := PastHours(outlets, WITH_FIELD, terms.targets.fieldHrs, terms);
      && OfKind(outlets, IsPending(false, true), terms) == past
      && OfKind(outlets, IsPending(false, false), terms) == WithStatus(outlets, WITH_FIELD) - past
    ensures var past := PastHours(outlets, {PENDING_GIFSY}, terms.targets.gifsyHrs, terms);
      && OfKind(outlets, IsPending(true, true), terms) == past
      && OfKind(outlets, IsPending(true, false), terms) == WithStatus(outlets, {PENDING_GIFSY}) - past
  {
    forall i | 0 <= i < |outlets| && outlets[i].Some? && Pending(outlets[i].value)
      ensures forall hours: nat :: IsPast(outlets[i].value, hours, terms) <==>
        RunningMs(DashStart(outlets[i].value), terms.now, terms.holidays) > hours * 3_600_000
    {
      forall start { DashStartIs(outlets[i].value, start); }
      assert AgesFrom(outlets[i].value, DashStart(outlets[i].value));
    }
  }

  /** The counters are what they say, status by status. */
  lemma TalliesCountByStatus(t: Tally, outlets: seq<Option<Submission>>, terms: Terms)
    requires Tallies(t, outlets, terms)
    ensures CountsByStatus(t, outlets, terms)
  {
    forall k { CountIsSize(outlets, k, terms); }
    KindsAreStatuses(outlets, terms);
    LateKinds(outlets, terms);
    var rejected, others := WithStatus(outlets, {REJECTED}),
      WithStatus(outlets, {RE_UPLOAD_REQUIRED, RESUBMISSION_REQUIRED, RE_KYC_REQUIRED, SUSPENDED});
    assert WithStatus(outlets, {REJECTED, RE_UPLOAD_REQUIRED, RESUBMISSION_REQUIRED, RE_KYC_REQUIRED, SUSPENDED}) ==
      rejected + others;
  }

  method KycDashboard(outlets: seq<Option<Submission>>, terms: Terms) returns (t: Tally)
    ensures Tallies(t, outlets, terms) && Adds(t, |outlets|)
    ensures CountsByStatus(t, outlets, terms)
  {
    t := Tally(0, 0, 0, 0, 0, 0, 0, 0, 0, 0, 0);
    for i := 0 to |outlets|
      invariant Tallies(t, outlets[..i], terms) && Adds(t, i)
    {
      assert outlets[..i + 1] == outlets[..i] + [outlets[i]];
      CountedLabels(t, outlets[..i], outlets[i], terms);
      CountedLate(t, outlets[..i], outlets[i], terms);
      CountedAdds(t, i, outlets[i], terms);
      t := CountOutlet(t, outlets[i], terms);
    }
    assert outlets[..|outlets|] == outlets;
    TalliesCountByStatus(t, outlets, terms);
  }

  /** The breached submissions of the list, over all outlets. */
  function ListedBreaches(outlets: seq<Option<Submission>>, terms: Terms): nat {
    if outlets == [] then 0
    else
      var o := outlets[|outlets| - 1];
      ListedBreaches(outlets[..|outlets| - 1], terms) +
      if ListedBreach(o, terms) then 1 else 0
  }

  /** A pending submission that the dashboard counts as breached and the list does not. */
  predicate OnlyOnDashboard(o: Option<Submission>, terms: Terms) {
    o.Some? && Pending(o.value) &&
    var age, target := DashAge(o.value, terms.holidays, terms.now), TargetMs(o.value, terms.targets);
    age > target && (2 * age < 2 * target + HOUR_MS || ClockStart(o.value).None?)
  }

  predicate ListedBreach(o: Option<Submission>, terms: Terms) {
    o.Some? && Pending(o.value) && Breached(o.value, terms.targets, terms.holidays, terms.now)
  }

  predicate CountedBreach(o: Option<Submission>, terms: Terms) {
    Meets(IsPending(false, true), o, terms) || Meets(IsPending(true, true), o, terms)
  }

  lemma OneOutlet(o: Option<Submission>, terms: Terms)
    ensures ListedBreach(o, terms) ==> CountedBreach(o, terms)
    ensures CountedBreach(o, terms) && !ListedBreach(o, terms) <==> OnlyOnDashboard(o, terms)
  {
    if o.Some? && Pending(o.value) {
      ListAndDashboardDisagreeIff(o.value, terms.targets, terms.holidays, terms.now);
    }
  }

  /** The dashboard never counts fewer breaches than the list shows, and as many if and only if no pending
      submission is in its last half hour or without a start. */
  lemma {:induction false} DashboardCoversList(outlets: seq<Option<Submission>>, terms: Terms)
    ensures var dash := Count(outlets, IsPending(false, true), terms) + Count(outlets, IsPending(true, true), terms);
      && ListedBreaches(outlets, terms) <= dash
      && (ListedBreaches(outlets, terms) == dash <==> forall o | o in outlets :: !OnlyOnDashboard(o, terms))
  {
    if outlets != [] {
      var before, o := outlets[..|outlets| - 1], outlets[|outlets| - 1];
      assert outlets == before + [o];
      DashboardCoversList(before, terms);
      OneOutlet(o, terms);
      assert o in outlets;
    }
  }
}
