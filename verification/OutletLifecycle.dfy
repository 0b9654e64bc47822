/**
 The life of an outlet: uploaded pending, made live by KYC approval, deactivated and reactivated, parked
 and un-parked, deleted.  Every admin operation is one step; KYC - attaching an owner, approval, a rep's
 "not interested" - is the environment.  Every sequence of steps is a run.
 */
module OutletLifecycle {
  import opened Prelude
  import KycBuckets

  type Code = string
  type PartnerId = string
  type UserId = string
  type RepId = string
  type Time = int

  datatype Outlet = Outlet(partner: Option<PartnerId>, active: bool, deactivatedAt: Option<Time>,
                           reactivatedAt: Option<Time>, deletedAt: Option<Time>,
                           intent: Option<KycBuckets.Intent>)

  const PARKED := Some(KycBuckets.Parked)
  const DECLINED := Some(KycBuckets.NotInterested)

  /** `logins` maps an owner to its user, `reps` an outlet to the rep of its open assignment; `stamps`
      and `online` are the users' session stamps and those with a live session. */
  datatype State = State(outlets: map<Code, Outlet>, logins: map<PartnerId, UserId>, reps: map<Code, RepId>,
                         stamps: map<UserId, Time>, online: set<UserId>)

  datatype Step =
    | Upsert(code: Code, rep: Option<RepId>, at: Time)
    | Deactivate(codes: set<Code>, at: Time)
    | Reactivate(codes: set<Code>, at: Time)
    | Park(codes: set<Code>)
    | Unpark(codes: set<Code>)
    | BulkDelete(codes: set<Code>, at: Time)
    | Attach(code: Code, owner: PartnerId, user: UserId)   // KYC gives an outlet its owner
    | Approve(owner: PartnerId, at: Time)                  // KYC approves the owner
    | Decline(code: Code)                                  // a rep marks the outlet not interested
    | SignIn(user: UserId)

  // ---- What a step does to one row ------------------------------------------------------------------

  predicate Live(o: Outlet) { o.active && o.deletedAt.None? }

  predicate Deactivated(o: Outlet) { !o.active && o.deactivatedAt.Some? }

  predicate CanReactivate(o: Outlet) { Deactivated(o) && o.deletedAt.None? }

  predicate CanPark(o: Outlet) {
    o.deletedAt.None? && !o.active && o.deactivatedAt.None? && o.intent != PARKED
  }

  predicate CanApprove(o: Outlet, owner: PartnerId) {
    o.partner == Some(owner) && o.deletedAt.None? && o.intent != DECLINED
  }

  function Reopened(o: Outlet, at: Time): Outlet {
    o.(active := true, reactivatedAt := Some(at), deactivatedAt := None, intent := None)
  }

  function TurnedOff(o: Outlet, at: Time): Outlet { o.(active := false, deactivatedAt := Some(at)) }

  /** Row `c` after a step.  An upload finds its row by code even when it is deleted; approval leaves
      `deactivatedAt` alone. */
  function After(s: Step, c: Code, o: Outlet): Outlet {
    match s
    case Upsert(code, rep, at) => if c == code && Deactivated(o) then Reopened(o, at) else o
    case Deactivate(codes, at) => if c in codes && Live(o) then TurnedOff(o, at) else o
    case Reactivate(codes, at) => if c in codes && CanReactivate(o) then Reopened(o, at) else o
    case Park(codes) => if c in codes && CanPark(o) then o.(intent := PARKED) else o
    case Unpark(codes) => if c in codes && o.intent == PARKED then o.(intent := None) else o
    case BulkDelete(codes, at) =>
      if c in codes && o.deletedAt.None? then o.(deletedAt := Some(at), active := false) else o
    case Attach(code, owner, user) =>
      if c == code && o.partner.None? then o.(partner := Some(owner)) else o
    case Approve(owner, at) =>
      if CanApprove(o, owner) then o.(active := true, reactivatedAt := Some(at), intent := None) else o
    case Decline(code) => if c == code then o.(intent := DECLINED, active := false) else o
    case SignIn(user) => o
  }

  const PENDING := Outlet(None, false, None, None, None, None)

  // ---- What a step does to the tables ---------------------------------------------------------------

  function OutletsAfter(outlets: map<Code, Outlet>, s: Step): map<Code, Outlet> {
    var rows := map c | c in outlets :: After(s, c, outlets[c]);
    if s.Upsert? && s.code !in outlets then rows[s.code := PENDING] else rows
  }

  /** Rows whose open assignment a step closes. */
  predicate Releases(s: Step, c: Code, o: Outlet) {
    match s
    case Deactivate(codes, at) => c in codes && Live(o)
    case BulkDelete(codes, at) => c in codes && o.deletedAt.None?
    case _ => false
  }

  function RepsAfter(st: State, s: Step): map<Code, RepId> {
    if s.Upsert? then (if s.rep.Some? then st.reps[s.code := s.rep.value] else st.reps)
    else map c | c in st.reps && !(c in st.outlets && Releases(s, c, st.outlets[c])) :: st.reps[c]
  }

  predicate OwnsLive(outlets: map<Code, Outlet>, owner: PartnerId, c: Code) {
    c in outlets && outlets[c].partner == Some(owner) && Live(outlets[c])
  }

  /** A deactivation turned off an outlet of this owner and left it no live one. */
  ghost predicate Stranded(outlets: map<Code, Outlet>, s: Step, owner: PartnerId) {
    s.Deactivate? && (exists c :: c in s.codes && OwnsLive(outlets, owner, c)) &&
    !exists c :: OwnsLive(OutletsAfter(outlets, s), owner, c)
  }

  ghost predicate StrandedUser(st: State, s: Step, u: UserId) {
    exists p :: p in st.logins && st.logins[p] == u && Stranded(st.outlets, s, p)
  }

  /** The users a deactivation stamps and signs out are exactly those of the stranded owners. */
  ghost predicate SessionsAfter(st: State, s: Step, st': State) {
    if s.SignIn? then st'.stamps == st.stamps && st'.online == st.online + {s.user}
    else
      && (forall u :: u in st'.online <==> u in st.online && !StrandedUser(st, s, u))
      && (forall u | StrandedUser(st, s, u) :: u in st'.stamps && st'.stamps[u] == s.at)
      && (forall u | !StrandedUser(st, s, u) ::
            (u in st'.stamps <==> u in st.stamps) && (u in st.stamps ==> st'.stamps[u] == st.stamps[u]))
  }

  ghost predicate Next(st: State, s: Step, st': State) {
    && st'.outlets == OutletsAfter(st.outlets, s)
    && st'.reps == RepsAfter(st, s)
    && st'.logins == (if s.Attach? && s.owner !in st.logins then st.logins[s.owner := s.user]
                      else st.logins)
    && SessionsAfter(st, s, st')
  }

  // ---- What an operation leaves, column by column -----------------------------------------------------

  /** The live outlets of these codes. */
  function ActiveAmong(outlets: map<Code, Outlet>, codes: set<Code>): set<Code> {
    set c | c in outlets && c in codes && outlets[c].active && outlets[c].deletedAt == None
  }

  /** The outlets of these codes that were never opened, are not deleted and not parked yet. */
  function NeverOpened(outlets: map<Code, Outlet>, codes: set<Code>): set<Code> {
    set c | c in outlets && c in codes && !outlets[c].active && outlets[c].deactivatedAt == None &&
            outlets[c].deletedAt == None && outlets[c].intent != Some(KycBuckets.Parked)
  }

  /** The outlets of these codes that satisfy `hit` are changed, the others are as they were. */
  ghost predicate Changed(before: map<Code, Outlet>, after: map<Code, Outlet>, codes: set<Code>,
                          hit: Outlet -> bool, change: Outlet -> Outlet)
  {
    after.Keys == before.Keys &&
    forall c | c in before ::
      after[c] == if c in codes && hit(before[c]) then change(before[c]) else before[c]
  }

  /** Exactly the open assignments of outlets of these codes that satisfy `hit` are closed. */
  ghost predicate Closed(reps: map<Code, RepId>, reps': map<Code, RepId>, outlets: map<Code, Outlet>,
                         codes: set<Code>, hit: Outlet -> bool)
  {
    reps'.Keys <= reps.Keys &&
    forall c | c in reps ::
      && (c in reps' <==> !(c in codes && c in outlets && hit(outlets[c])))
      && (c in reps' ==> reps'[c] == reps[c])
  }

  /** The owner had an active outlet among the codes, and has none at all afterwards. */
  ghost predicate LostItsLast(before: map<Code, Outlet>, after: map<Code, Outlet>, codes: set<Code>, p: PartnerId) {
    && (exists c | c in codes && c in before ::
          before[c].partner == Some(p) && before[c].active && before[c].deletedAt == None)
    && forall c | c in after && after[c].partner == Some(p) :: !after[c].active || after[c].deletedAt != None
  }

  ghost predicate UserLostLast(before: State, after: State, codes: set<Code>, u: UserId) {
    exists p :: p in before.logins && before.logins[p] == u &&
                LostItsLast(before.outlets, after.outlets, codes, p)
  }

  /** The users who lost their last outlet are stamped and signed out, and nobody else. */
  ghost predicate SignedOut(before: State, after: State, codes: set<Code>, at: Time) {
    && (forall u :: u in after.online <==> u in before.online && !UserLostLast(before, after, codes, u))
    && (forall u :: u in after.stamps <==> u in before.stamps || UserLostLast(before, after, codes, u))
    && (forall u | u in after.stamps ::
          after.stamps[u] == if UserLostLast(before, after, codes, u) then at
                             else if u in before.stamps then before.stamps[u] else at)
  }

  lemma StrandedLostItsLast(st: State, codes: set<Code>, at: Time, p: PartnerId)
    ensures Stranded(st.outlets, Deactivate(codes, at), p) <==>
      LostItsLast(st.outlets, OutletsAfter(st.outlets, Deactivate(codes, at)), codes, p)
  {
    var after := OutletsAfter(st.outlets, Deactivate(codes, at));
    if LostItsLast(st.outlets, after, codes, p) {
      var c :| c in codes && c in st.outlets && st.outlets[c].partner == Some(p) && Live(st.outlets[c]);
      assert OwnsLive(st.outlets, p, c);
    }
    if Stranded(st.outlets, Deactivate(codes, at), p) {
      var c :| c in codes && OwnsLive(st.outlets, p, c);
      forall d | d in after && after[d].partner == Some(p) ensures !Live(after[d]) {
        assert !OwnsLive(after, p, d);
      }
    }
  }

  lemma DeactivationSignsOut(st: State, codes: set<Code>, at: Time, st': State)
    requires Next(st, Deactivate(codes, at), st')
    ensures SignedOut(st, st', codes, at)
    ensures Changed(st.outlets, st'.outlets, codes, (o: Outlet) => o.active && o.deletedAt == None,
                    (o: Outlet) => Outlet(o.partner, false, Some(at), o.reactivatedAt, None, o.intent))
    ensures Closed(st.reps, st'.reps, st.outlets, codes, (o: Outlet) => o.active && o.deletedAt == None)
  {
    forall p { StrandedLostItsLast(st, codes, at, p); }
    assert forall u :: UserLostLast(st, st', codes, u) <==> StrandedUser(st, Deactivate(codes, at), u);
  }

  lemma IntentIsOneOfTwo(o: Outlet)
    ensures o.intent == None || o.intent == PARKED || o.intent == DECLINED
  {
    if o.intent.Some? { assert o.intent.value.Parked? || o.intent.value.NotInterested?; }
  }

  /** Parking touches what was never opened, whether a rep declined it or not. */
  lemma ParkingHides(outlets: map<Code, Outlet>, codes: set<Code>)
    ensures Changed(outlets, OutletsAfter(outlets, Park(codes)), codes,
      (o: Outlet) => !o.active && o.deactivatedAt == None && o.deletedAt == None &&
                     (o.intent == None || o.intent == Some(KycBuckets.NotInterested)),
      (o: Outlet) => Outlet(o.partner, false, None, o.reactivatedAt, None, Some(KycBuckets.Parked)))
  {
    forall c | c in outlets
      ensures outlets[c].intent == None || outlets[c].intent == PARKED || outlets[c].intent == DECLINED
    {
      IntentIsOneOfTwo(outlets[c]);
    }
  }

  // ---- The service ------------------------------------------------------------------------------------

  class OutletBook {
    var outlets: map<Code, Outlet>
    var logins: map<PartnerId, UserId>
    var reps: map<Code, RepId>
    var stamps: map<UserId, Time>
    var online: set<UserId>

    function Now(): State
      reads this
    {
      State(outlets, logins, reps, stamps, online)
    }

    method UpsertRow(code: Code, rep: Option<RepId>, at: Time)
      modifies this`outlets, this`reps
      ensures Next(old(Now()), Upsert(code, rep, at), Now())
      ensures code !in old(outlets) ==>
        outlets == old(outlets)[code := Outlet(None, false, None, None, None, None)]
      ensures code in old(outlets) ==>
        Changed(old(outlets), outlets, {code}, (o: Outlet) => !o.active && o.deactivatedAt != None,
                (o: Outlet) => Outlet(o.partner, true, None, Some(at), o.deletedAt, None))
      ensures reps == if rep.Some? then old(reps)[code := rep.value] else old(reps)
    {
      if code !in outlets {
        outlets := outlets[code := PENDING];
      } else if Deactivated(outlets[code]) {
        outlets := outlets[code := Reopened(outlets[code], at)];
      }
      if rep.Some? { reps := reps[code := rep.value]; }
      assert outlets == OutletsAfter(old(outlets), Upsert(code, rep, at));
    }

    /** The owners of the outlets turned off, less those that still have a live outlet. */
    method StrandedOwners(before: map<Code, Outlet>, codes: set<Code>, at: Time)
      returns (stranded: set<PartnerId>)
      requires outlets == OutletsAfter(before, Deactivate(codes, at))
      ensures forall p :: p in stranded <==> Stranded(before, Deactivate(codes, at), p)
    {
      ghost var s := Deactivate(codes, at);
      var ids := set c | c in before && c in codes && Live(before[c]);
      var owners := set c | c in ids && outlets[c].partner.Some? :: outlets[c].partner.value;
      var stillActive := set c | c in outlets && outlets[c].partner.Some? && Live(outlets[c]) ::
                           outlets[c].partner.value;
      stranded := owners - stillActive;
      forall p | Stranded(before, s, p) ensures p in stranded {
        var c :| c in codes && OwnsLive(before, p, c);
        assert c in ids;
        forall d | d in outlets && outlets[d].partner == Some(p) ensures !Live(outlets[d]) {
          assert !OwnsLive(outlets, p, d);
        }
      }
      forall p | p in stranded ensures Stranded(before, s, p) {
        var c :| c in ids && before[c].partner == Some(p);
        assert OwnsLive(before, p, c);
      }
    }

    /** Their users. */
    method StrandedUsers(ghost before: State, outletsBefore: map<Code, Outlet>, codes: set<Code>, at: Time)
      returns (users: set<UserId>)
      requires before.outlets == outletsBefore && before.logins == logins
      requires outlets == OutletsAfter(outletsBefore, Deactivate(codes, at))
      ensures forall u :: u in users <==> StrandedUser(before, Deactivate(codes, at), u)
    {
      var stranded := StrandedOwners(outletsBefore, codes, at);
      users := set p | p in stranded && p in logins :: logins[p];
    }

    method DeactivateOutlets(codes: set<Code>, at: Time) returns (count: nat)
      modifies this`outlets, this`reps, this`stamps, this`online
      ensures Next(old(Now()), Deactivate(codes, at), Now())
      ensures count == 0 ==> Now() == old(Now())
      ensures count == |ActiveAmong(old(outlets), codes)|
      ensures Changed(old(outlets), outlets, codes, (o: Outlet) => o.active && o.deletedAt == None,
                      (o: Outlet) => Outlet(o.partner, false, Some(at), o.reactivatedAt, None, o.intent))
      ensures Closed(old(reps), reps, old(outlets), codes, (o: Outlet) => o.active && o.deletedAt == None)
      ensures SignedOut(old(Now()), Now(), codes, at)
    {
      ghost var s := Deactivate(codes, at);
      var ids := set c | c in outlets && c in codes && Live(outlets[c]);
      assert ids == ActiveAmong(outlets, codes);
      count := |ids|;
      var before := outlets;
      outlets := map c | c in outlets :: if c in ids then TurnedOff(outlets[c], at) else outlets[c];
      reps := map c | c in reps && c !in ids :: reps[c];
      assert outlets == OutletsAfter(before, s) && reps == RepsAfter(old(Now()), s);
      var users := StrandedUsers(old(Now()), before, codes, at);
      if users != {} {
        stamps := stamps + map u | u in users :: at;
        online := online - users;
      }
      if count == 0 {
        assert outlets == before && reps == old(reps);
      }
      DeactivationSignsOut(old(Now()), codes, at, Now());
    }

    method ReactivateOutlets(codes: set<Code>, at: Time) returns (found: bool)
      modifies this`outlets
      ensures Next(old(Now()), Reactivate(codes, at), Now())
      ensures !found ==> Now() == old(Now())
      ensures found <==> exists c | c in codes && c in old(outlets) ::
        !old(outlets)[c].active && old(outlets)[c].deactivatedAt != None && old(outlets)[c].deletedAt == None
      ensures Changed(old(outlets), outlets, codes,
                      (o: Outlet) => !o.active && o.deactivatedAt != None && o.deletedAt == None,
                      (o: Outlet) => Outlet(o.partner, true, None, Some(at), None, None))
    {
      var ids := set c | c in outlets && c in codes && CanReactivate(outlets[c]);
      found := ids != {};
      if found {
        outlets := map c | c in outlets :: if c in ids then Reopened(outlets[c], at) else outlets[c];
      }
      assert outlets == OutletsAfter(old(outlets), Reactivate(codes, at)) by {
        forall c | c in old(outlets) && c !in ids
          ensures After(Reactivate(codes, at), c, old(outlets)[c]) == old(outlets)[c] {}
      }
      assert reps == RepsAfter(old(Now()), Reactivate(codes, at));
    }

    method ParkOutlets(codes: set<Code>) returns (count: nat)
      modifies this`outlets
      ensures Next(old(Now()), Park(codes), Now())
      ensures Changed(old(outlets), outlets, codes,
                      (o: Outlet) => !o.active && o.deactivatedAt == None && o.deletedAt == None &&
                           (o.intent == None || o.intent == Some(KycBuckets.NotInterested)),
                      (o: Outlet) => Outlet(o.partner, false, None, o.reactivatedAt, None, Some(KycBuckets.Parked)))
      ensures count == |NeverOpened(old(outlets), codes)|
    {
      var ids := set c | c in outlets && c in codes && CanPark(outlets[c]);
      assert ids == NeverOpened(outlets, codes);
      count := |ids|;
      outlets := map c | c in outlets :: if c in ids then outlets[c].(intent := PARKED) else outlets[c];
      assert outlets == OutletsAfter(old(outlets), Park(codes));
      ParkingHides(old(outlets), codes);
      assert reps == RepsAfter(old(Now()), Park(codes));
    }

    method UnparkOutlets(codes: set<Code>) returns (count: nat)
      modifies this`outlets
      ensures Next(old(Now()), Unpark(codes), Now())
      ensures Changed(old(outlets), outlets, codes, (o: Outlet) => o.intent == Some(KycBuckets.Parked),
                      (o: Outlet) => Outlet(o.partner, o.active, o.deactivatedAt, o.reactivatedAt, o.deletedAt, None))
      ensures count == |set c | c in old(outlets) && c in codes && old(outlets)[c].intent == PARKED|
    {
      var ids := set c | c in outlets && c in codes && outlets[c].intent == PARKED;
      count := |ids|;
      outlets := map c | c in outlets :: if c in ids then outlets[c].(intent := None) else outlets[c];
      assert outlets == OutletsAfter(old(outlets), Unpark(codes));
      assert reps == RepsAfter(old(Now()), Unpark(codes));
    }

    method BulkDeleteOutlets(codes: set<Code>, at: Time) returns (found: bool)
      modifies this`outlets, this`reps
      ensures Next(old(Now()), BulkDelete(codes, at), Now())
      ensures !found ==> Now() == old(Now())
      ensures found <==> exists c :: c in codes && c in old(outlets) && old(outlets)[c].deletedAt == None
      ensures Changed(old(outlets), outlets, codes, (o: Outlet) => o.deletedAt == None,
                      (o: Outlet) => Outlet(o.partner, false, o.deactivatedAt, o.reactivatedAt, Some(at), o.intent))
      ensures Closed(old(reps), reps, old(outlets), codes, (o: Outlet) => o.deletedAt == None)
    {
      ghost var s := BulkDelete(codes, at);
      var ids := set c | c in outlets && c in codes && outlets[c].deletedAt.None?;
      found := ids != {};
      if found {
        outlets := map c | c in outlets ::
          if c in ids then outlets[c].(deletedAt := Some(at), active := false) else outlets[c];
        reps := map c | c in reps && c !in ids :: reps[c];
      }
      assert outlets == OutletsAfter(old(outlets), s) by {
        forall c | c in old(outlets) && c !in ids ensures After(s, c, old(outlets)[c]) == old(outlets)[c] {}
      }
      assert reps == RepsAfter(old(Now()), s) by {
        forall c | c in old(outlets) && c !in ids ensures !Releases(s, c, old(outlets)[c]) {}
      }
    }
  }

  // ---- What KYC does -------------------------------------------------------------------------------------

  /** Approval opens exactly the owner's outlets that are neither deleted nor declined, parked ones too, and
      forgets no old deactivation time. */
  lemma ApprovalOpens(st: State, owner: PartnerId, at: Time, st': State)
    requires Next(st, Approve(owner, at), st')
    ensures Changed(st.outlets, st'.outlets, st.outlets.Keys,
      (o: Outlet) => o.partner == Some(owner) && o.deletedAt == None && o.intent != Some(KycBuckets.NotInterested),
      (o: Outlet) => Outlet(o.partner, true, o.deactivatedAt, Some(at), None, None))
    ensures st'.reps == st.reps && st'.logins == st.logins && st'.stamps == st.stamps && st'.online == st.online
  {
    assert forall u :: !StrandedUser(st, Approve(owner, at), u);
  }

  /** A rep's "not interested" turns the outlet off, and nothing records a deactivation. */
  lemma DeclineTurnsOff(st: State, code: Code, st': State)
    requires Next(st, Decline(code), st')
    ensures Changed(st.outlets, st'.outlets, {code}, (o: Outlet) => true,
      (o: Outlet) => Outlet(o.partner, false, o.deactivatedAt, o.reactivatedAt, o.deletedAt,
                            Some(KycBuckets.NotInterested)))
    ensures st'.reps == st.reps && st'.logins == st.logins && st'.stamps == st.stamps && st'.online == st.online
  {
    assert forall u :: !StrandedUser(st, Decline(code), u);
  }

  /** An outlet gets an owner once, and an owner a login once. */
  lemma AttachGivesOwner(st: State, code: Code, owner: PartnerId, user: UserId, st': State)
    requires Next(st, Attach(code, owner, user), st')
    ensures Changed(st.outlets, st'.outlets, {code}, (o: Outlet) => o.partner == None,
      (o: Outlet) => Outlet(Some(owner), o.active, o.deactivatedAt, o.reactivatedAt, o.deletedAt, o.intent))
    ensures st'.logins == if owner in st.logins then st.logins else st.logins[owner := user]
    ensures st'.reps == st.reps && st'.stamps == st.stamps && st'.online == st.online
  {
    assert forall u :: !StrandedUser(st, Attach(code, owner, user), u);
  }

  /** Signing in touches nothing but who is online. */
  lemma SignInOpens(st: State, user: UserId, st': State)
    requires Next(st, SignIn(user), st')
    ensures st' == State(st.outlets, st.logins, st.reps, st.stamps, st.online + {user})
  {
    assert OutletsAfter(st.outlets, SignIn(user)) == st.outlets;
  }

  // ---- Runs -------------------------------------------------------------------------------------------

  const NOTHING := State(map[], map[], map[], map[], {})

  ghost predicate Run(steps: seq<Step>, states: seq<State>) {
    && |states| == |steps| + 1 && states[0] == NOTHING
    && forall i :: 0 <= i < |steps| ==> Next(states[i], steps[i], states[i + 1])
  }

  /** KYC approved the outlet in one of the first `n` steps. */
  predicate ApprovedAt(steps: seq<Step>, states: seq<State>, i: int, c: Code) {
    0 <= i < |steps| && i < |states| && steps[i].Approve? && c in states[i].outlets &&
    CanApprove(states[i].outlets[c], steps[i].owner)
  }

  ghost predicate ApprovedBefore(steps: seq<Step>, states: seq<State>, n: nat, c: Code) {
    exists i :: i < n && ApprovedAt(steps, states, i, c)
  }

  /** No admin path opens an outlet that KYC never approved: one that is active, or was ever turned off,
      has been approved. */
  lemma {:induction false} OnlyApprovalOpens(steps: seq<Step>, states: seq<State>, n: nat, c: Code)
    requires Run(steps, states) && n <= |steps| && c in states[n].outlets
    requires states[n].outlets[c].active || states[n].outlets[c].deactivatedAt.Some?
    ensures ApprovedBefore(steps, states, n, c)
  {
    var s := steps[n - 1];
    assert Next(states[n - 1], s, states[n]);
    assert c in states[n - 1].outlets && states[n].outlets[c] == After(s, c, states[n - 1].outlets[c]);
    var o := states[n - 1].outlets[c];
    if o.active || o.deactivatedAt.Some? {
      OnlyApprovalOpens(steps, states, n - 1, c);
      var i :| i < n - 1 && ApprovedAt(steps, states, i, c);
      assert ApprovedBefore(steps, states, n, c);
    } else {
      assert ApprovedAt(steps, states, n - 1, c);
    }
  }

  /** An outlet with an intent is hidden: it is not active, and a parked one was never turned off. */
  predicate Consistent(o: Outlet) {
    (o.intent.Some? ==> !o.active) && (o.intent == PARKED ==> o.deactivatedAt.None?)
  }

  lemma {:induction false} ParkedIsPending(steps: seq<Step>, states: seq<State>, n: nat, c: Code)
    requires Run(steps, states) && n <= |steps| && c in states[n].outlets
    ensures Consistent(states[n].outlets[c])
  {
    if n > 0 {
      assert Next(states[n - 1], steps[n - 1], states[n]);
      if c in states[n - 1].outlets { ParkedIsPending(steps, states, n - 1, c); }
    }
  }

  const PARKING: seq<Step> := [Upsert("o", None, 1), Attach("o", "p", "u"), Park({"o"})]

  /** A parked outlet can have an owner, and so a submission under review: parking looks at the outlet row
      only. */
  lemma ParkedOutletCanHaveOwner() returns (states: seq<State>)
    ensures Run(PARKING, states)
    ensures var o := states[3].outlets; "o" in o && o["o"].intent == PARKED && o["o"].partner == Some("p")
  {
    var owned := PENDING.(partner := Some("p"));
    var st1 := State(map["o" := PENDING], map[], map[], map[], {});
    var st2 := State(map["o" := owned], map["p" := "u"], map[], map[], {});
    var st3 := st2.(outlets := map["o" := owned.(intent := PARKED)]);
    assert Next(NOTHING, PARKING[0], st1) && Next(st1, PARKING[1], st2) && Next(st2, PARKING[2], st3);
    states := [NOTHING, st1, st2, st3];
  }

  // ---- Deleted outlets ----------------------------------------------------------------------------------

  ghost predicate DeletedAreOff(outlets: map<Code, Outlet>) {
    forall c | c in outlets && outlets[c].deletedAt.Some? :: !outlets[c].active
  }

  /** The step uploads the code of an outlet that was deactivated before it was deleted. */
  predicate RevivesDeleted(st: State, s: Step) {
    s.Upsert? && s.code in st.outlets && st.outlets[s.code].deletedAt.Some? && Deactivated(st.outlets[s.code])
  }

  /** A step makes a deleted outlet active if and only if it uploads one that had been deactivated before
      it was deleted: the upload reopens it without un-deleting it. */
  lemma DeletedStayOffIff(st: State, s: Step, st': State)
    requires DeletedAreOff(st.outlets) && Next(st, s, st')
    ensures DeletedAreOff(st'.outlets) <==> !RevivesDeleted(st, s)
  {
    if RevivesDeleted(st, s) { assert st'.outlets[s.code].active; }
  }

  lemma {:induction false} DeletedOffSoFar(steps: seq<Step>, states: seq<State>, n: nat)
    requires Run(steps, states) && n <= |steps| && forall i | 0 <= i < n :: !RevivesDeleted(states[i], steps[i])
    ensures DeletedAreOff(states[n].outlets)
  {
    if n > 0 {
      DeletedOffSoFar(steps, states, n - 1);
      DeletedStayOffIff(states[n - 1], steps[n - 1], states[n]);
    }
  }

  /** In a run deleted outlets stay off throughout if and only if no upload names such an outlet. */
  lemma RunKeepsDeletedOffIff(steps: seq<Step>, states: seq<State>)
    requires Run(steps, states)
    ensures (forall n | 0 <= n <= |steps| :: DeletedAreOff(states[n].outlets)) <==>
      forall i | 0 <= i < |steps| :: !RevivesDeleted(states[i], steps[i])
  {
    if forall i | 0 <= i < |steps| :: !RevivesDeleted(states[i], steps[i]) {
      forall n | 0 <= n <= |steps| ensures DeletedAreOff(states[n].outlets) {
        DeletedOffSoFar(steps, states, n);
      }
    } else {
      var i :| 0 <= i < |steps| && RevivesDeleted(states[i], steps[i]);
      if DeletedAreOff(states[i].outlets) { DeletedStayOffIff(states[i], steps[i], states[i + 1]); }
    }
  }

  /** An outlet's life to its revival: uploaded, given an owner, approved, deactivated, deleted, and named in
      an upload again. */
  const REVIVAL: seq<Step> := [
    Upsert("o", None, 1), Attach("o", "p", "u"), Approve("p", 2), Deactivate({"o"}, 3), BulkDelete({"o"}, 4),
    Upsert("o", None, 5)]

  function RevivalState(n: nat): State {
    var owned := PENDING.(partner := Some("p"));
    var live := owned.(active := true, reactivatedAt := Some(2));
    var off := live.(active := false, deactivatedAt := Some(3));
    var gone := off.(deletedAt := Some(4));
    var logins := map["p" := "u"];
    match n
    case 0 => NOTHING
    case 1 => State(map["o" := PENDING], map[], map[], map[], {})
    case 2 => State(map["o" := owned], logins, map[], map[], {})
    case 3 => State(map["o" := live], logins, map[], map[], {})
    case 4 => State(map["o" := off], logins, map[], map["u" := 3], {})
    case 5 => State(map["o" := gone], logins, map[], map["u" := 3], {})
    case _ => State(map["o" := Reopened(gone, 5)], logins, map[], map["u" := 3], {})
  }

  lemma OwnerIsStranded(u: UserId)
    ensures StrandedUser(RevivalState(3), Deactivate({"o"}, 3), u) <==> u == "u"
  {
    var st, s := RevivalState(3), Deactivate({"o"}, 3);
    assert OwnsLive(st.outlets, "p", "o");
    forall c ensures !OwnsLive(OutletsAfter(st.outlets, s), "p", c) {}
    assert st.logins["p"] == "u" && Stranded(st.outlets, s, "p");
  }

  lemma RevivalDeactivates()
    ensures Next(RevivalState(3), Deactivate({"o"}, 3), RevivalState(4))
  {
    forall u { OwnerIsStranded(u); }
  }

  lemma RevivalStep(n: nat)
    requires n < 6
    ensures Next(RevivalState(n), REVIVAL[n], RevivalState(n + 1))
  {
    if n == 3 { RevivalDeactivates(); }
  }

  /** The whole run; it ends with an outlet that is active and deleted. */
  lemma DeletedOutletIsRevived() returns (states: seq<State>)
    ensures Run(REVIVAL, states) && DeletedAreOff(states[5].outlets)
    ensures var o := states[6].outlets; "o" in o && o["o"].active && o["o"].deletedAt == Some(4)
  {
    states := seq(7, n requires 0 <= n => RevivalState(n));
    forall n | 0 <= n < |REVIVAL| ensures Next(states[n], REVIVAL[n], states[n + 1]) { RevivalStep(n); }
  }

  // ---- Round trips ----------------------------------------------------------------------------------------

  /** Everything but the time of the last reactivation. */
  predicate SameBut(o: Outlet, o': Outlet) { o'.(reactivatedAt := o.reactivatedAt) == o }

  /** Deactivating and reactivating the same codes gives back an outlet - but for its reactivation time -
      if and only if it is not one that was already off and gets opened by it, nor a live one that
      approval had left with an old deactivation time. */
  lemma ReactivateUndoesDeactivateIff(codes: set<Code>, at: Time, at': Time, c: Code, o: Outlet)
    requires Consistent(o) && c in codes
    ensures SameBut(o, After(Reactivate(codes, at'), c, After(Deactivate(codes, at), c, o))) <==>
      !CanReactivate(o) && (Live(o) ==> o.deactivatedAt.None?)
  {
  }

  /** Parking and un-parking the same codes gives back an outlet if and only if it was not parked already,
      and parking did not replace a rep's "not interested". */
  lemma UnparkUndoesParkIff(codes: set<Code>, c: Code, o: Outlet)
    requires c in codes
    ensures After(Unpark(codes), c, After(Park(codes), c, o)) == o <==>
      o.intent != PARKED && !(CanPark(o) && o.intent == DECLINED)
  {
    if o.intent.Some? {
      assert o.intent.value.Parked? || o.intent.value.NotInterested?;
    }
  }
}
