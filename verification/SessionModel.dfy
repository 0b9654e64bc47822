/**
 The login-session protocol of the auth service as a step system.

 One step is one database statement or one clock reading.  Any number of refreshes, logins and
 "log out everywhere" runs are in progress at once, and a run is any sequence of steps at all: a
 step that does not apply in a state leaves the state alone.

 A session row is named by its position in `sessions`; the row's refresh token is random and unique,
 so the same number stands for the token.  Times are readings of one shared clock, which never runs
 backwards but may stand still between two steps.
 */
module SessionModel {
  import opened Prelude

  type Time = nat
  type UserId = string
  type SessionId = nat

  const ROTATION_GRACE_MS: nat := 5_000
  const SESSION_TTL_MS: nat := 7 * 24 * 60 * 60 * 1000

  datatype Session = Session(
    user: UserId,
    createdAt: Time,
    expiresAt: Time,
    rotatedFrom: Option<SessionId>,
    revokedAt: Option<Time>)
  {
    predicate Live() { revokedAt.None? }
  }

  /** Where one refresh call stands between two of its statements. */
  datatype Phase =
    | ToClaim                                 // read a live row, about to revoke it
    | Claimed                                 // won the revoke; checks its gates, then mints
    | ToReread(minted: SessionId)             // minted; about to re-read the user's stamp
    | ToRetract(minted: SessionId)            // the re-read saw a logout; about to revoke its mint
    | ToLookup(seenRevokedAt: Option<Time>)   // about to look for a live successor to hand back
    | Done(pair: Option<SessionId>)           // returned that row's token pair, or refused (None)

  datatype Refresh = Refresh(token: SessionId, phase: Phase)

  datatype LogoutPhase = Clocked | Stamped | Swept

  /** One "log out everywhere": reads the clock, stamps its users, then revokes their live rows. */
  datatype Logout = Logout(users: set<UserId>, at: Time, phase: LogoutPhase)

  datatype State = State(
    clock: Time,
    sessions: seq<Session>,
    stamps: map<UserId, Time>,      // User.sessionsInvalidBefore
    refreshes: seq<Refresh>,
    logouts: seq<Logout>)

  datatype Action =
    | Tick(ms: nat)
    | Login(user: UserId)                 // OTP login, assume-tenant, the mint of exit-tenant
    | Slide(session: SessionId)           // the request guard extends a live row's expiry
    | Revoke(sessions: set<SessionId>)    // any other revocation, such as exit-tenant's
    | Present(token: SessionId)           // a refresh starts: reads its row and the user's stamp
    | Claim(refresh: nat)
    | GateFail(refresh: nat)              // a deactivated partner, suspended vendor, lost grant
    | Mint(refresh: nat)
    | Reread(refresh: nat)
    | Retract(refresh: nat)
    | Lookup(refresh: nat)
    | StartLogout(users: set<UserId>)
    | CommitStamp(logout: nat)
    | Sweep(logout: nat)

  const Init := State(0, [], map[], [], [])

  // ---- The statements -------------------------------------------------------------------------

  predicate IsSuccessor(ss: seq<Session>, m: SessionId, p: SessionId) {
    m < |ss| && ss[m].rotatedFrom == Some(p)
  }

  function RevokeRow(s: Session, at: Time): Session {
    if s.Live() then s.(revokedAt := Some(at)) else s
  }

  /** `updateMany` over the row with one refresh token, `where revokedAt is null`. */
  function RevokeOne(ss: seq<Session>, m: SessionId, at: Time): seq<Session> {
    if m < |ss| then ss[m := RevokeRow(ss[m], at)] else ss
  }

  /** `updateMany` over the given rows, `where revokedAt is null`. */
  function RevokeIds(ss: seq<Session>, ids: set<SessionId>, at: Time): (r: seq<Session>)
    ensures |r| == |ss|
    ensures forall i :: 0 <= i < |ss| ==> r[i] == if i in ids then RevokeRow(ss[i], at) else ss[i]
  {
    seq(|ss|, i requires 0 <= i < |ss| => if i in ids then RevokeRow(ss[i], at) else ss[i])
  }

  /** `updateMany` over every row of the given users, `where revokedAt is null`. */
  function RevokeUsers(ss: seq<Session>, users: set<UserId>, at: Time): (r: seq<Session>)
    ensures |r| == |ss|
    ensures forall i :: 0 <= i < |ss| ==>
      r[i] == if ss[i].user in users then RevokeRow(ss[i], at) else ss[i]
  {
    seq(|ss|, i requires 0 <= i < |ss| =>
      if ss[i].user in users then RevokeRow(ss[i], at) else ss[i])
  }

  /** The first live row that rotated from `p`, searching from position `from`. */
  function LiveSuccessor(ss: seq<Session>, p: SessionId, from: nat): (r: Option<SessionId>)
    requires from <= |ss|
    ensures r.Some? ==> IsSuccessor(ss, r.value, p) && ss[r.value].Live()
    ensures r.None? ==> forall m :: from <= m < |ss| && IsSuccessor(ss, m, p) ==> !ss[m].Live()
    decreases |ss| - from
  {
    if from == |ss| then None
    else if ss[from].rotatedFrom == Some(p) && ss[from].Live() then Some(from)
    else LiveSuccessor(ss, p, from + 1)
  }

  /** The row existed before the user's last "log out everywhere". */
  predicate Outdated(st: State, s: Session) {
    s.user in st.stamps && s.createdAt < st.stamps[s.user]
  }

  function SetPhase(st: State, r: nat, phase: Phase): State
    requires r < |st.refreshes|
  {
    st.(refreshes := st.refreshes[r := st.refreshes[r].(phase := phase)])
  }

  function MintRow(st: State, user: UserId, rotatedFrom: Option<SessionId>): State {
    st.(sessions := st.sessions +
          [Session(user, st.clock, st.clock + SESSION_TTL_MS, rotatedFrom, None)])
  }

  function StartLogoutOf(st: State, users: set<UserId>): State {
    st.(logouts := st.logouts + [Logout(users, st.clock, Clocked)])
  }

  /** The phase a refresh enters after its first read. */
  function FirstPhase(st: State, token: SessionId): Phase {
    if token >= |st.sessions| then Done(None)                       // unknown token
    else
      var s := st.sessions[token];
      if Outdated(st, s) then Done(None)
      else if s.Live() && st.clock <= s.expiresAt then ToClaim
      else ToLookup(s.revokedAt)
  }

  /** A replay of a row revoked longer ago than the grace window is reuse. */
  predicate IsReuse(st: State, seenRevokedAt: Option<Time>) {
    seenRevokedAt.Some? && st.clock > seenRevokedAt.value + ROTATION_GRACE_MS
  }

  /** The refresh exists, is at the given kind of phase, and its token names a row. */
  predicate At(st: State, r: nat) {
    r < |st.refreshes| && st.refreshes[r].token < |st.sessions|
  }

  function ApplyRefresh(st: State, r: nat, a: Action): State
    requires At(st, r)
  {
    var token := st.refreshes[r].token;
    var s := st.sessions[token];
    match (st.refreshes[r].phase, a)
    case (ToClaim, Claim(_)) =>
      if s.Live() then
        SetPhase(st.(sessions := RevokeOne(st.sessions, token, st.clock)), r, Claimed)
      else
        SetPhase(st, r, ToLookup(None))       // the caller still holds its stale read
    case (Claimed, GateFail(_)) => SetPhase(st, r, Done(None))
    case (Claimed, Mint(_)) =>
      SetPhase(MintRow(st, s.user, Some(token)), r, ToReread(|st.sessions|))
    case (ToReread(m), Reread(_)) =>
      SetPhase(st, r, if Outdated(st, s) then ToRetract(m) else Done(Some(m)))
    case (ToRetract(m), Retract(_)) =>
      SetPhase(st.(sessions := RevokeOne(st.sessions, m, st.clock)), r, Done(None))
    case (ToLookup(seen), Lookup(_)) =>
      var found := LiveSuccessor(st.sessions, token, 0);
      if found.Some? then SetPhase(st, r, Done(found))
      else if IsReuse(st, seen) then StartLogoutOf(SetPhase(st, r, Done(None)), {s.user})
      else SetPhase(st, r, Done(None))
    case _ => st
  }

  function Apply(st: State, a: Action): State {
    match a
    case Tick(ms) => st.(clock := st.clock + ms)
    case Login(user) => MintRow(st, user, None)
    case Slide(i) =>
      if i < |st.sessions| && st.sessions[i].Live() then
        st.(sessions := st.sessions[i :=
              st.sessions[i].(expiresAt := st.clock + SESSION_TTL_MS)])
      else st
    case Revoke(ids) => st.(sessions := RevokeIds(st.sessions, ids, st.clock))
    case Present(token) =>
      st.(refreshes := st.refreshes + [Refresh(token, FirstPhase(st, token))])
    case StartLogout(users) => StartLogoutOf(st, users)
    case CommitStamp(j) =>
      if j < |st.logouts| && st.logouts[j].phase == Clocked then
        var l := st.logouts[j];
        st.(stamps := st.stamps + (map u | u in l.users :: l.at),
            logouts := st.logouts[j := l.(phase := Stamped)])
      else st
    case Sweep(j) =>
      if j < |st.logouts| && st.logouts[j].phase == Stamped then
        var l := st.logouts[j];
        st.(sessions := RevokeUsers(st.sessions, l.users, l.at),
            logouts := st.logouts[j := l.(phase := Swept)])
      else st
    case Claim(r) => if At(st, r) then ApplyRefresh(st, r, a) else st
    case GateFail(r) => if At(st, r) then ApplyRefresh(st, r, a) else st
    case Mint(r) => if At(st, r) then ApplyRefresh(st, r, a) else st
    case Reread(r) => if At(st, r) then ApplyRefresh(st, r, a) else st
    case Retract(r) => if At(st, r) then ApplyRefresh(st, r, a) else st
    case Lookup(r) => if At(st, r) then ApplyRefresh(st, r, a) else st
  }

  // ---- Runs -----------------------------------------------------------------------------------

  function ExecFrom(st: State, acts: seq<Action>): State {
    if acts == [] then st else Apply(ExecFrom(st, acts[..|acts| - 1]), acts[|acts| - 1])
  }

  /** The state a run of the whole system reaches. */
  function Exec(acts: seq<Action>): State { ExecFrom(Init, acts) }

  /** A session is pending while the refresh that minted it has not finished its re-read. */
  ghost predicate Pending(st: State, m: SessionId) {
    exists r :: PendingAt(st, r, m)
  }

  ghost predicate PendingAt(st: State, r: nat, m: SessionId) {
    r < |st.refreshes| &&
    (st.refreshes[r].phase == ToReread(m) || st.refreshes[r].phase == ToRetract(m))
  }

  /** Rules a run may keep; each speaks of one step and the state just before it. */
  ghost predicate OrderedStep(st: State, a: Action) {
    a.CommitStamp? && a.logout < |st.logouts| && st.logouts[a.logout].phase == Clocked ==>
      forall u :: u in st.logouts[a.logout].users && u in st.stamps ==>
        st.stamps[u] <= st.logouts[a.logout].at
  }

  ghost predicate PromptStep(st: State, a: Action) {
    a.CommitStamp? && a.logout < |st.logouts| && st.logouts[a.logout].phase == Clocked ==>
      forall i :: 0 <= i < |st.sessions| && st.sessions[i].user in st.logouts[a.logout].users ==>
        st.sessions[i].createdAt < st.logouts[a.logout].at
  }

  ghost predicate PatientStep(st: State, a: Action) {
    a.Present? ==> !Pending(st, a.token)
  }

  /** No logout's stamp ever overwrites a later one. */
  ghost predicate Ordered(acts: seq<Action>) {
    forall i :: 0 <= i < |acts| ==> OrderedStep(Exec(acts[..i]), acts[i])
  }

  /** No session is minted between a logout's clock reading and its stamp. */
  ghost predicate Prompt(acts: seq<Action>) {
    forall i :: 0 <= i < |acts| ==> PromptStep(Exec(acts[..i]), acts[i])
  }

  /** No token is presented while the refresh that minted it awaits its re-read. */
  ghost predicate Patient(acts: seq<Action>) {
    forall i :: 0 <= i < |acts| ==> PatientStep(Exec(acts[..i]), acts[i])
  }
}
