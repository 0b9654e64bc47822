/**
 The auth service's own methods, statement by statement, with every other request free to run in
 between.  Each method is proved to be one run of the step system, so what is proved of every run
 holds of every call.
 */
module SessionService {
  import opened Prelude
  import opened SessionModel
  import opened SessionInvariants
  import opened SessionTheorems

  /** The step is one of refresh `r`'s own statements. */
  predicate DrivesRefresh(a: Action, r: nat) {
    match a
    case Claim(q) => q == r
    case GateFail(q) => q == r
    case Mint(q) => q == r
    case Reread(q) => q == r
    case Retract(q) => q == r
    case Lookup(q) => q == r
    case _ => false
  }

  predicate DrivesLogout(a: Action, j: nat) {
    match a
    case CommitStamp(k) => k == j
    case Sweep(k) => k == j
    case _ => false
  }

  /** Steps of anyone but refresh `r`. */
  predicate ByOthers(acts: seq<Action>, r: nat) {
    forall i :: 0 <= i < |acts| ==> !DrivesRefresh(acts[i], r)
  }

  predicate LogoutByOthers(acts: seq<Action>, j: nat) {
    forall i :: 0 <= i < |acts| ==> !DrivesLogout(acts[i], j)
  }

  lemma ExecOne(st: State, a: Action)
    ensures ExecFrom(st, [a]) == Apply(st, a)
  {
    assert [a][..0] == [];
  }

  /** Others leave a refresh where it stands, and leave the rows in place. */
  lemma {:induction false} OthersKeepRefresh(st: State, acts: seq<Action>, r: nat)
    requires ByOthers(acts, r) && r < |st.refreshes|
    ensures r < |ExecFrom(st, acts).refreshes|
    ensures ExecFrom(st, acts).refreshes[r] == st.refreshes[r]
  {
    if acts != [] {
      var init := acts[..|acts| - 1];
      OthersKeepRefresh(st, init, r);
      RefreshesStay(ExecFrom(st, init), acts[|acts| - 1]);
      OtherStepKeepsRefresh(ExecFrom(st, init), acts[|acts| - 1], r);
    }
  }

  lemma OtherStepKeepsRefresh(st: State, a: Action, r: nat)
    requires !DrivesRefresh(a, r) && r < |st.refreshes| && r < |Apply(st, a).refreshes|
    ensures Apply(st, a).refreshes[r] == st.refreshes[r]
  {
  }

  lemma {:induction false} OthersKeepLogout(st: State, acts: seq<Action>, j: nat)
    requires LogoutByOthers(acts, j) && j < |st.logouts|
    ensures j < |ExecFrom(st, acts).logouts|
    ensures ExecFrom(st, acts).logouts[j] == st.logouts[j]
  {
    if acts != [] {
      var init := acts[..|acts| - 1];
      OthersKeepLogout(st, init, j);
      OtherStepKeepsLogout(ExecFrom(st, init), acts[|acts| - 1], j);
    }
  }

  lemma OtherStepKeepsLogout(st: State, a: Action, j: nat)
    requires !DrivesLogout(a, j) && j < |st.logouts|
    ensures j < |Apply(st, a).logouts| && Apply(st, a).logouts[j] == st.logouts[j]
  {
  }

  // ---- What a refresh comes to ---------------------------------------------------------------------

  /** The user was logged out everywhere after the row was created. */
  predicate StampedOver(st: State, token: SessionId) {
    token < |st.sessions| && st.sessions[token].user in st.stamps &&
    st.sessions[token].createdAt < st.stamps[st.sessions[token].user]
  }

  predicate Rotatable(st: State, token: SessionId) {
    token < |st.sessions| && st.sessions[token].revokedAt == None && st.clock <= st.sessions[token].expiresAt
  }

  predicate IsLiveSuccessor(ss: seq<Session>, m: SessionId, token: SessionId) {
    m < |ss| && ss[m].rotatedFrom == Some(token) && ss[m].revokedAt == None
  }

  ghost predicate HasLiveSuccessor(ss: seq<Session>, token: SessionId) {
    exists m: SessionId :: IsLiveSuccessor(ss, m, token)
  }

  /** The token was revoked more than five seconds ago. */
  predicate RevokedLongAgo(st: State, token: SessionId, now: Time) {
    token < |st.sessions| && SeenLongAgo(st.sessions[token].revokedAt, now)
  }

  predicate SeenLongAgo(revokedAt: Option<Time>, now: Time) {
    revokedAt.Some? && now > revokedAt.value + 5_000
  }

  predicate SameTables(st: State, st': State) {
    st'.clock == st.clock && st'.sessions == st.sessions && st'.stamps == st.stamps &&
    st'.logouts == st.logouts
  }

  /** The user is stamped, and every live row of the user is revoked. */
  predicate LoggedOut(st: State, st': State, user: UserId) {
    && st'.clock == st.clock && st'.stamps == st.stamps[user := st.clock]
    && st'.logouts == st.logouts + [Logout({user}, st.clock, Swept)]
    && |st'.sessions| == |st.sessions|
    && forall i | 0 <= i < |st.sessions| :: st'.sessions[i] ==
         if st.sessions[i].user == user && st.sessions[i].revokedAt == None
         then st.sessions[i].(revokedAt := Some(st.clock)) else st.sessions[i]
  }

  /** The tables with the token revoked, and with a successor for seven days when there is one. */
  predicate RotatedTo(st: State, st': State, token: SessionId, successor: bool)
    requires token < |st.sessions|
  {
    var revoked := st.sessions[token := st.sessions[token].(revokedAt := Some(st.clock))];
    var row := Session(st.sessions[token].user, st.clock, st.clock + 604_800_000, Some(token), None);
    SameTables(st.(sessions := if successor then revoked + [row] else revoked), st')
  }

  /** A refresh with nobody else about, from the tables it finds to those it leaves. */
  ghost predicate RefreshAlone(st: State, st': State, token: SessionId, gatesPass: bool,
                               pair: Option<SessionId>)
  {
    if token >= |st.sessions| || StampedOver(st, token) then pair == None && SameTables(st, st')
    else if Rotatable(st, token) then
      pair == (if gatesPass then Some(|st.sessions|) else None) && RotatedTo(st, st', token, gatesPass)
    else if HasLiveSuccessor(st.sessions, token) then
      pair.Some? && IsLiveSuccessor(st.sessions, pair.value, token) && SameTables(st, st')
    else
      pair == None &&
      if RevokedLongAgo(st, token, st.clock) then LoggedOut(st, st', st.sessions[token].user)
      else SameTables(st, st')
  }

  // With others about: the tables as a refresh finds them at its own statements.

  /** At its second statement. */
  ghost function Claiming(st: State, token: SessionId, others: seq<seq<Action>>): State
    requires |others| == 4
  {
    ExecFrom(Apply(st, Present(token)), others[0])
  }

  /** At the statement after its claim. */
  ghost function AfterClaim(st: State, token: SessionId, others: seq<seq<Action>>): State
    requires |others| == 4
  {
    ExecFrom(Apply(Claiming(st, token, others), Claim(|st.refreshes|)), others[1])
  }

  /** At its re-read. */
  ghost function Rereading(st: State, token: SessionId, others: seq<seq<Action>>): State
    requires |others| == 4
  {
    ExecFrom(Apply(AfterClaim(st, token, others), Mint(|st.refreshes|)), others[2])
  }

  /** At its look for a successor to hand back. */
  ghost function Looking(st: State, token: SessionId, others: seq<seq<Action>>): State
    requires |others| == 4
  {
    if Rotatable(st, token) then AfterClaim(st, token, others) else Claiming(st, token, others)
  }

  /** The token is known, and not from before a log-out. */
  predicate Known(st: State, token: SessionId) { token < |st.sessions| && !StampedOver(st, token) }

  /** It finds its row live twice: when it reads it and when it claims it. */
  ghost predicate Wins(st: State, token: SessionId, others: seq<seq<Action>>)
    requires |others| == 4
  {
    Known(st, token) && Rotatable(st, token) && token < |Claiming(st, token, others).sessions| &&
    Claiming(st, token, others).sessions[token].revokedAt == None
  }

  /** It hands out a pair: what it minted, or a live successor it found. */
  ghost predicate HandsOut(st: State, token: SessionId, others: seq<seq<Action>>, gatesPass: bool)
    requires |others| == 4
  {
    Known(st, token) &&
    if Wins(st, token, others) then gatesPass && !StampedOver(Rereading(st, token, others), token)
    else HasLiveSuccessor(Looking(st, token, others).sessions, token)
  }

  /** It logs the user out everywhere. */
  ghost predicate Kills(st: State, token: SessionId, others: seq<seq<Action>>)
    requires |others| == 4
  {
    Known(st, token) && !Wins(st, token, others) &&
    !HasLiveSuccessor(Looking(st, token, others).sessions, token) &&
    RevokedLongAgo(st, token, Looking(st, token, others).clock)
  }

  /** Of the operator's rows: the session being exited, or one that was rotated from it. */
  predicate IsExited(ss: seq<Session>, i: SessionId, operator: UserId, sid: SessionId) {
    i < |ss| && ss[i].user == operator && (i == sid || ss[i].rotatedFrom == Some(sid))
  }

  /** Exactly those rows are revoked, and nothing else changes. */
  ghost predicate RevokesExited(st: State, st': State, operator: UserId, sid: SessionId) {
    && st'.clock == st.clock && st'.stamps == st.stamps && st'.logouts == st.logouts
    && st'.refreshes == st.refreshes && |st'.sessions| == |st.sessions|
    && forall i: SessionId | i < |st.sessions| :: st'.sessions[i] ==
         if IsExited(st.sessions, i, operator, sid) && st.sessions[i].revokedAt == None
         then st.sessions[i].(revokedAt := Some(st.clock)) else st.sessions[i]
  }

  /** An exit with nobody else about: those rows are revoked, and there is a new home session for seven
      days. */
  ghost predicate ExitAlone(st: State, st': State, operator: UserId, sid: SessionId) {
    var home := Session(operator, st.clock, st.clock + 604_800_000, None, None);
    sid < |st.sessions| && RevokesExited(st.(sessions := st.sessions + [home]), st', operator, sid)
  }

  lemma FoundIff(ss: seq<Session>, token: SessionId)
    ensures LiveSuccessor(ss, token, 0).Some? <==> HasLiveSuccessor(ss, token)
  {
    var found := LiveSuccessor(ss, token, 0);
    if found.Some? {
      assert IsLiveSuccessor(ss, found.value, token);
    } else if m :| IsLiveSuccessor(ss, m, token) {
      assert IsSuccessor(ss, m, token);
    }
  }

  /** Its statements with nothing in between: a row that is read live is claimed. */
  lemma AloneRotates(st: State, token: SessionId, gatesPass: bool)
    requires Known(st, token) && Rotatable(st, token)
    ensures var me := |st.refreshes|; var claimed := Apply(Apply(st, Present(token)), Claim(me));
      if gatesPass then RefreshAlone(st, Apply(Apply(claimed, Mint(me)), Reread(me)), token, true, Some(|st.sessions|))
      else RefreshAlone(st, Apply(claimed, GateFail(me)), token, false, None)
  {
    var me := |st.refreshes|;
    var read := Apply(st, Present(token));
    assert At(read, me) && read.refreshes[me].phase == ToClaim;
    var claimed := Apply(read, Claim(me));
    assert At(claimed, me) && claimed.refreshes[me].phase == Claimed;
    assert claimed.sessions == st.sessions[token := st.sessions[token].(revokedAt := Some(st.clock))];
    var minted := Apply(claimed, Mint(me));
    assert At(minted, me) && minted.refreshes[me].phase == ToReread(|st.sessions|);
  }

  /** The log-out that a replay starts, with nothing in between. */
  lemma AloneLogsOut(st: State, looked: State, user: UserId)
    requires looked == st.(refreshes := looked.refreshes,
                           logouts := st.logouts + [Logout({user}, st.clock, Clocked)])
    ensures var j := |st.logouts|; LoggedOut(st, Apply(Apply(looked, CommitStamp(j)), Sweep(j)), user)
  {
    var j := |st.logouts|;
    var stamped := Apply(looked, CommitStamp(j));
    assert stamped.stamps == st.stamps[user := st.clock];
    assert stamped.logouts[j] == Logout({user}, st.clock, Stamped);
    var swept := Apply(stamped, Sweep(j));
    assert swept.logouts == st.logouts + [Logout({user}, st.clock, Swept)];
  }

  /** A row that is not is looked up. */
  lemma AloneLooks(st: State, token: SessionId, looked: State, gatesPass: bool, pair: Option<SessionId>)
    requires Known(st, token) && !Rotatable(st, token)
    requires looked == Apply(Apply(st, Present(token)), Lookup(|st.refreshes|))
    requires pair.Some? <==> HasLiveSuccessor(st.sessions, token)
    requires pair.Some? ==> IsLiveSuccessor(st.sessions, pair.value, token)
    ensures var j := |st.logouts|;
      if pair == None && RevokedLongAgo(st, token, st.clock) then
        && looked.logouts == st.logouts + [Logout({st.sessions[token].user}, st.clock, Clocked)]
        && RefreshAlone(st, Apply(Apply(looked, CommitStamp(j)), Sweep(j)), token, gatesPass, pair)
      else RefreshAlone(st, looked, token, gatesPass, pair)
  {
    var me := |st.refreshes|;
    var read := Apply(st, Present(token));
    assert At(read, me) && read.refreshes[me].phase == ToLookup(st.sessions[token].revokedAt);
    FoundIff(st.sessions, token);
    if pair == None && RevokedLongAgo(st, token, st.clock) { AloneLogsOut(st, looked, st.sessions[token].user); }
  }

  lemma ExitStepIs(before: State, operator: UserId, sid: SessionId)
    ensures RevokesExited(before, Apply(before, Revoke(ExitTargets(before.sessions, operator, sid))), operator, sid)
  {
  }

  /** No session of the user from before that time is live. */
  ghost predicate EndedBefore(st: State, user: UserId, at: Time) {
    forall m: SessionId | m < |st.sessions| && st.sessions[m].user == user ::
      st.sessions[m].createdAt < at ==> !st.sessions[m].Live()
  }

  ghost predicate Nobody(others: seq<seq<Action>>) { forall k | 0 <= k < |others| :: others[k] == [] }

  /** The live rows of some users. */
  function LiveRows(ss: seq<Session>, users: set<UserId>): set<SessionId> {
    set i | 0 <= i < |ss| && ss[i].user in users && ss[i].Live()
  }

  const DAY_MS: nat := 24 * 60 * 60 * 1000

  class AuthService {
    var clock: Time
    var sessions: seq<Session>
    var stamps: map<UserId, Time>
    var refreshes: seq<Refresh>
    var logouts: seq<Logout>
    ghost var history: seq<Action>

    function Db(): State
      reads this
    {
      State(clock, sessions, stamps, refreshes, logouts)
    }

    ghost predicate Valid()
      reads this
    {
      Db() == Exec(history)
    }

    constructor ()
      ensures Valid() && history == []
    {
      clock, sessions, stamps, refreshes, logouts := 0, [], map[], [], [];
      history := [];
    }

    /** The request guard: the bearer's own row must be live and not expired.  It is then kept for seven more
        days, when less than six are left. */
    method ValidateBearer(sid: SessionId) returns (ok: bool)
      requires Valid()
      modifies this`sessions, this`history
      ensures Valid() && old(history) <= history
      ensures ok <==> sid < old(|sessions|) && old(sessions)[sid].revokedAt == None && clock < old(sessions)[sid].expiresAt
      ensures sessions == if ok && old(sessions)[sid].expiresAt < clock + 518_400_000
        then old(sessions)[sid := old(sessions)[sid].(expiresAt := clock + 604_800_000)] else old(sessions)
    {
      ok := sid < |sessions| && sessions[sid].Live() && clock < sessions[sid].expiresAt;
      if ok && sessions[sid].expiresAt < clock + SESSION_TTL_MS - DAY_MS {
        ghost var before := Db();
        sessions := sessions[sid := sessions[sid].(expiresAt := clock + SESSION_TTL_MS)];
        Log(before, Slide(sid));
      }
    }

    /** What everyone else does between two statements of a call. */
    method Interfere(acts: seq<Action>)
      requires Valid()
      modifies this
      ensures Valid() && history == old(history) + acts
      ensures Db() == ExecFrom(old(Db()), acts)
    {
      for i := 0 to |acts|
        invariant Db() == ExecFrom(old(Db()), acts[..i])
        invariant history == old(history)
      {
        assert acts[..i + 1][..i] == acts[..i];
        var st := Apply(Db(), acts[i]);
        clock, sessions, stamps, refreshes, logouts :=
          st.clock, st.sessions, st.stamps, st.refreshes, st.logouts;
      }
      assert acts[..|acts|] == acts;
      ExecInTwo(Init, history, acts);
      history := history + acts;
    }

    /** Records a statement of our own as a step of the history. */
    ghost method Log(before: State, a: Action)
      requires before == Exec(history) && Db() == Apply(before, a)
      modifies this`history
      ensures Valid() && history == old(history) + [a]
    {
      ExecInTwo(Init, history, [a]);
      ExecOne(before, a);
      history := history + [a];
    }

    method MoveTo(me: nat, phase: Phase)
      requires me < |refreshes|
      modifies this`refreshes
      ensures Db() == SetPhase(old(Db()), me, phase)
    {
      refreshes := refreshes[me := refreshes[me].(phase := phase)];
    }

    /** A login: a fresh row with no predecessor. */
    method IssueSession(user: UserId) returns (id: SessionId)
      requires Valid()
      modifies this
      ensures Valid() && history == old(history) + [Login(user)] && Db() == Apply(old(Db()), Login(user))
      ensures id == old(|sessions|) && |sessions| == id + 1 && sessions[..id] == old(sessions)
      ensures sessions[id] == Session(user, clock, clock + SESSION_TTL_MS, None, None)
    {
      ghost var before := Db();
      id := |sessions|;
      sessions := sessions + [Session(user, clock, clock + SESSION_TTL_MS, None, None)];
      Log(before, Login(user));
    }

    /** The same, while refresh `me` waits: its position and its row's identity stay put. */
    method LetOthersRun(acts: seq<Action>, me: nat)
      requires Valid() && At(Db(), me) && ByOthers(acts, me)
      modifies this
      ensures Valid() && history == old(history) + acts && Db() == ExecFrom(old(Db()), acts)
      ensures At(Db(), me) && refreshes[me] == old(refreshes[me])
      ensures RowKept(old(Db()), Db(), refreshes[me].token)
    {
      ghost var snapshot := Db();
      Interfere(acts);
      OthersKeepRefresh(snapshot, acts, me);
      RunKeepsRow(snapshot, acts, refreshes[me].token);
    }

    // ---- The statements of a refresh, in the order the endpoint issues them ----------------------

    /** Reads the row by its token together with the user's stamp. */
    method ReadSession(token: SessionId) returns (me: nat)
      requires Valid()
      modifies this`refreshes, this`history
      ensures Valid() && history == old(history) + [Present(token)] && Db() == Apply(old(Db()), Present(token))
      ensures me == old(|refreshes|) && me < |refreshes|
      ensures refreshes[me] == Refresh(token, FirstPhase(old(Db()), token))
    {
      ghost var before := Db();
      me := |refreshes|;
      refreshes := refreshes + [Refresh(token, FirstPhase(Db(), token))];
      Log(before, Present(token));
    }

    /** The atomic single-use claim: revokes the row if nobody has. */
    method ClaimRow(me: nat) returns (won: bool)
      requires Valid() && At(Db(), me) && refreshes[me].phase == ToClaim
      modifies this`sessions, this`refreshes, this`history
      ensures Valid() && history == old(history) + [Claim(me)] && Db() == Apply(old(Db()), Claim(me))
      ensures At(Db(), me) && refreshes[me].token == old(refreshes[me].token)
      ensures won == old(sessions[refreshes[me].token].Live())
      ensures refreshes[me].phase == if won then Claimed else ToLookup(None)
      ensures RowKept(old(Db()), Db(), refreshes[me].token)
      ensures !sessions[refreshes[me].token].Live()
    {
      ghost var before := Db();
      var token := refreshes[me].token;
      won := sessions[token].revokedAt == None;
      if won {
        sessions := sessions[token := sessions[token].(revokedAt := Some(clock))];
      }
      MoveTo(me, if won then Claimed else ToLookup(None));
      Log(before, Claim(me));
    }

    /** A gate after the claim refused; the row stays revoked. */
    method RefuseAtGate(me: nat)
      requires Valid() && At(Db(), me) && refreshes[me].phase == Claimed
      modifies this`refreshes, this`history
      ensures Valid() && history == old(history) + [GateFail(me)] && Db() == Apply(old(Db()), GateFail(me))
      ensures At(Db(), me) && refreshes[me] == Refresh(old(refreshes[me].token), Done(None))
    {
      ghost var before := Db();
      MoveTo(me, Done(None));
      Log(before, GateFail(me));
    }

    method MintSuccessor(me: nat, session: Session) returns (minted: SessionId)
      requires Valid() && At(Db(), me) && refreshes[me].phase == Claimed
      requires sessions[refreshes[me].token].user == session.user
      modifies this`sessions, this`refreshes, this`history
      ensures Valid() && history == old(history) + [Mint(me)] && Db() == Apply(old(Db()), Mint(me))
      ensures At(Db(), me) && refreshes[me] == Refresh(old(refreshes[me].token), ToReread(minted))
      ensures minted == old(|sessions|) && RowKept(old(Db()), Db(), refreshes[me].token)
    {
      ghost var before := Db();
      minted := |sessions|;
      sessions := sessions +
        [Session(session.user, clock, clock + SESSION_TTL_MS, Some(refreshes[me].token), None)];
      MoveTo(me, ToReread(minted));
      Log(before, Mint(me));
    }

    /** Re-reads the user's stamp and compares it with the predecessor's creation. */
    method RereadStamp(me: nat, session: Session) returns (outdated: bool)
      requires Valid() && At(Db(), me) && refreshes[me].phase.ToReread?
      requires sessions[refreshes[me].token].user == session.user
      requires sessions[refreshes[me].token].createdAt == session.createdAt
      modifies this`refreshes, this`history
      ensures Valid() && history == old(history) + [Reread(me)] && Db() == Apply(old(Db()), Reread(me))
      ensures At(Db(), me) && refreshes[me].token == old(refreshes[me].token)
      ensures outdated <==> StampedOver(old(Db()), refreshes[me].token)
      ensures refreshes[me].phase ==
        var minted := old(refreshes[me].phase.minted);
        if outdated then ToRetract(minted) else Done(Some(minted))
    {
      ghost var before := Db();
      var minted := refreshes[me].phase.minted;
      outdated := session.user in stamps && session.createdAt < stamps[session.user];
      MoveTo(me, if outdated then ToRetract(minted) else Done(Some(minted)));
      Log(before, Reread(me));
    }

    method RetractMint(me: nat)
      requires Valid() && At(Db(), me) && refreshes[me].phase.ToRetract?
      modifies this`sessions, this`refreshes, this`history
      ensures Valid() && history == old(history) + [Retract(me)] && Db() == Apply(old(Db()), Retract(me))
      ensures At(Db(), me) && refreshes[me] == Refresh(old(refreshes[me].token), Done(None))
    {
      ghost var before := Db();
      sessions := RevokeOne(sessions, refreshes[me].phase.minted, clock);
      MoveTo(me, Done(None));
      Log(before, Retract(me));
    }

    /** The row was revoked or expired: converge on its live successor, or refuse - and on a replay
        outside the grace window start logging the user out everywhere. */
    method HandBack(me: nat, user: UserId) returns (pair: Option<SessionId>, reused: bool)
      requires Valid() && At(Db(), me) && refreshes[me].phase.ToLookup?
      requires sessions[refreshes[me].token].user == user
      modifies this`refreshes, this`logouts, this`history
      ensures Valid() && history == old(history) + [Lookup(me)] && Db() == Apply(old(Db()), Lookup(me))
      ensures At(Db(), me) && refreshes[me] == Refresh(old(refreshes[me].token), Done(pair))
      ensures pair.Some? <==> HasLiveSuccessor(sessions, refreshes[me].token)
      ensures pair.Some? ==> IsLiveSuccessor(sessions, pair.value, refreshes[me].token)
      ensures var seen := old(refreshes[me].phase.seenRevokedAt);
        reused <==> pair == None && SeenLongAgo(seen, clock)
      ensures logouts == if reused then old(logouts) + [Logout({user}, clock, Clocked)] else old(logouts)
    {
      ghost var before := Db();
      var seen := refreshes[me].phase.seenRevokedAt;
      pair := LiveSuccessor(sessions, refreshes[me].token, 0);
      MoveTo(me, Done(pair));
      FoundIff(sessions, refreshes[me].token);
      reused := pair.None? && seen.Some? && clock > seen.value + ROTATION_GRACE_MS;
      if reused { logouts := logouts + [Logout({user}, clock, Clocked)]; }
      Log(before, Lookup(me));
    }

    // ---- The endpoints ---------------------------------------------------------------------------

    /** The refresh endpoint.  `others` says what happens in each gap between two statements, `during` what
        happens in the two gaps of the log-out it may start, and `gatesPass` what the partner, vendor and
        grant gates decide.  Whatever they are, the call is one refresh of the step system; it hands out a
        pair exactly when it has to, and that pair is the token's one and only successor. */
    method RefreshToken(token: SessionId, others: seq<seq<Action>>, during: nat -> seq<seq<Action>>,
                        gatesPass: bool)
      returns (pair: Option<SessionId>)
      requires Valid() && |others| == 4
      requires forall k :: 0 <= k < |others| ==> ByOthers(others[k], |refreshes|)
      requires forall j :: |during(j)| == 2 && LogoutByOthers(during(j)[0], j) && LogoutByOthers(during(j)[1], j)
      modifies this
      ensures Valid() && old(history) <= history
      ensures old(|refreshes|) < |refreshes|
      ensures refreshes[old(|refreshes|)] == Refresh(token, Done(pair))
      ensures pair.Some? ==>
        && IsSuccessor(sessions, pair.value, token)
        && (forall m: SessionId :: IsSuccessor(sessions, m, token) ==> m == pair.value)
        && token < |sessions| && !sessions[token].Live()
      ensures pair.Some? <==> HandsOut(old(Db()), token, others, gatesPass)
      ensures Kills(old(Db()), token, others) ==>
        EndedBefore(Db(), old(sessions)[token].user, Looking(old(Db()), token, others).clock)
      ensures Nobody(others) && (forall j :: Nobody(during(j))) ==>
        RefreshAlone(old(Db()), Db(), token, gatesPass, pair)
    {
      ghost var start := Db();
      var me := ReadSession(token);
      if refreshes[me].phase.Done? { return None; }
      var session := sessions[token];                     // the snapshot the call works from
      LetOthersRun(others[0], me);
      if refreshes[me].phase == ToClaim {
        pair := RefreshLive(start, token, me, session, others, during, gatesPass);
      } else {
        pair := RefreshRevoked(start, token, me, session, others, during, gatesPass);
      }
      PairIsTheSuccessor(history, me);
    }

    /** The endpoint from its second statement on, when its first found the row live. */
    method RefreshLive(ghost start: State, token: SessionId, me: nat, session: Session, others: seq<seq<Action>>,
                       during: nat -> seq<seq<Action>>, gatesPass: bool)
      returns (pair: Option<SessionId>)
      requires Valid() && |others| == 4 && Db() == Claiming(start, token, others) && Known(start, token)
      requires me == |start.refreshes| && At(Db(), me) && refreshes[me].token == token
      requires forall k :: 0 <= k < |others| ==> ByOthers(others[k], me)
      requires forall j :: |during(j)| == 2 && LogoutByOthers(during(j)[0], j) && LogoutByOthers(during(j)[1], j)
      requires RowKept(start, Db(), token)
      requires Rotatable(start, token) && refreshes[me].phase == ToClaim && session == start.sessions[token]
      modifies this
      ensures Valid() && old(history) <= history
      ensures me < |refreshes| && refreshes[me] == Refresh(token, Done(pair))
      ensures pair.Some? <==> HandsOut(start, token, others, gatesPass)
      ensures Nobody(others) ==> RefreshAlone(start, Db(), token, gatesPass, pair)
    {
      pair := ClaimAndRotate(me, session, others[1..], during, gatesPass);
      if Nobody(others) { AloneRotates(start, token, gatesPass); }
    }

    /** When its first statement found the row revoked or expired. */
    method RefreshRevoked(ghost start: State, token: SessionId, me: nat, session: Session,
                          others: seq<seq<Action>>, during: nat -> seq<seq<Action>>, gatesPass: bool)
      returns (pair: Option<SessionId>)
      requires Valid() && |others| == 4 && Db() == Claiming(start, token, others) && Known(start, token)
      requires me == |start.refreshes| && At(Db(), me) && refreshes[me].token == token
      requires forall k :: 0 <= k < |others| ==> ByOthers(others[k], me)
      requires forall j :: |during(j)| == 2 && LogoutByOthers(during(j)[0], j) && LogoutByOthers(during(j)[1], j)
      requires RowKept(start, Db(), token)
      requires !Rotatable(start, token) && session == start.sessions[token]
      requires refreshes[me].phase == ToLookup(session.revokedAt)
      modifies this
      ensures Valid() && old(history) <= history
      ensures me < |refreshes| && refreshes[me] == Refresh(token, Done(pair))
      ensures pair.Some? <==> HandsOut(start, token, others, gatesPass)
      ensures Kills(start, token, others) ==> EndedBefore(Db(), session.user, Claiming(start, token, others).clock)
      ensures Nobody(others) && (forall j :: Nobody(during(j))) ==>
        RefreshAlone(start, Db(), token, gatesPass, pair)
    {
      ghost var j := |logouts|;
      pair := Converge(me, session.user, during);
      if Kills(start, token, others) { SweptHasEnded(history, j); }
      if Nobody(others) {
        AloneLooks(start, token, Apply(Apply(start, Present(token)), Lookup(me)), gatesPass, pair);
      }
    }

    /** The row was read live: claim it and rotate, or converge with whoever claimed it. */
    method ClaimAndRotate(me: nat, session: Session, others: seq<seq<Action>>, during: nat -> seq<seq<Action>>,
                          gatesPass: bool)
      returns (pair: Option<SessionId>)
      requires Valid() && At(Db(), me) && refreshes[me].phase == ToClaim && |others| == 3
      requires forall k :: 0 <= k < |others| ==> ByOthers(others[k], me)
      requires forall j :: |during(j)| == 2 && LogoutByOthers(during(j)[0], j) && LogoutByOthers(during(j)[1], j)
      requires sessions[refreshes[me].token].user == session.user
      requires sessions[refreshes[me].token].createdAt == session.createdAt
      modifies this
      ensures Valid() && old(history) <= history
      ensures me < |refreshes| && refreshes[me] == Refresh(old(refreshes[me].token), Done(pair))
      ensures var token := old(refreshes[me].token); var claimed := ExecFrom(Apply(old(Db()), Claim(me)), others[0]);
        pair.Some? <==>
          if old(sessions[token].revokedAt) == None
          then gatesPass && !StampedOver(ExecFrom(Apply(claimed, Mint(me)), others[1]), token)
          else HasLiveSuccessor(claimed.sessions, token)
      ensures Nobody(others) && old(sessions[refreshes[me].token].revokedAt) == None ==>
        var claimed := Apply(old(Db()), Claim(me));
        && (!gatesPass ==> Db() == Apply(claimed, GateFail(me)))
        && (pair.Some? ==> pair.value == old(|sessions|) && Db() == Apply(Apply(claimed, Mint(me)), Reread(me)))
    {
      var won := ClaimRow(me);
      LetOthersRun(others[0], me);
      if won {
        pair := RotateClaimed(me, session, others[1..], gatesPass);
      } else {
        pair := Converge(me, session.user, during);
      }
    }

    /** The claim was lost or the row was not live: hand back its successor, or finish the log-out that a
        replay starts. */
    method Converge(me: nat, user: UserId, during: nat -> seq<seq<Action>>) returns (pair: Option<SessionId>)
      requires Valid() && At(Db(), me) && refreshes[me].phase.ToLookup?
      requires sessions[refreshes[me].token].user == user
      requires forall j :: |during(j)| == 2 && LogoutByOthers(during(j)[0], j) && LogoutByOthers(during(j)[1], j)
      modifies this
      ensures Valid() && old(history) <= history
      ensures me < |refreshes| && refreshes[me] == Refresh(old(refreshes[me].token), Done(pair))
      ensures pair.Some? <==> HasLiveSuccessor(old(sessions), old(refreshes[me].token))
      ensures pair.Some? ==> IsLiveSuccessor(old(sessions), pair.value, old(refreshes[me].token))
      ensures var j := old(|logouts|); var looked := Apply(old(Db()), Lookup(me));
        if pair == None && SeenLongAgo(old(refreshes[me].phase.seenRevokedAt), old(clock)) then
          && j < |logouts| && logouts[j] == Logout({user}, old(clock), Swept)
          && (Nobody(during(j)) ==> Db() == Apply(Apply(looked, CommitStamp(j)), Sweep(j)))
        else Db() == looked
    {
      var reused: bool;
      pair, reused := HandBack(me, user);
      if reused { var _ := FinishLogout(|logouts| - 1, during(|logouts| - 1)); }
    }

    /** The claim was won: check the gates, mint, re-read the stamp, retract if it moved. */
    method RotateClaimed(me: nat, session: Session, others: seq<seq<Action>>, gatesPass: bool)
      returns (pair: Option<SessionId>)
      requires Valid() && At(Db(), me) && refreshes[me].phase == Claimed && |others| == 2
      requires forall k :: 0 <= k < |others| ==> ByOthers(others[k], me)
      requires sessions[refreshes[me].token].user == session.user
      requires sessions[refreshes[me].token].createdAt == session.createdAt
      modifies this
      ensures Valid() && old(history) <= history
      ensures At(Db(), me) && refreshes[me] == Refresh(old(refreshes[me].token), Done(pair))
      ensures var rereading := ExecFrom(Apply(old(Db()), Mint(me)), others[0]);
        pair.Some? <==> gatesPass && !StampedOver(rereading, old(refreshes[me].token))
      ensures !gatesPass ==> Db() == Apply(old(Db()), GateFail(me))
      ensures pair.Some? ==>
        && pair.value == old(|sessions|)
        && Db() == Apply(ExecFrom(Apply(old(Db()), Mint(me)), others[0]), Reread(me))
    {
      if !gatesPass {
        RefuseAtGate(me);
        return None;
      }
      var minted := MintSuccessor(me, session);
      LetOthersRun(others[0], me);
      pair := SettleMint(me, session, minted, others[1]);
    }

    /** Re-read the stamp: keep the mint, or retract it. */
    method SettleMint(me: nat, session: Session, minted: SessionId, others: seq<Action>)
      returns (pair: Option<SessionId>)
      requires Valid() && At(Db(), me) && refreshes[me].phase == ToReread(minted) && ByOthers(others, me)
      requires sessions[refreshes[me].token].user == session.user
      requires sessions[refreshes[me].token].createdAt == session.createdAt
      modifies this
      ensures Valid() && old(history) <= history
      ensures At(Db(), me) && refreshes[me] == Refresh(old(refreshes[me].token), Done(pair))
      ensures pair == if StampedOver(old(Db()), old(refreshes[me].token)) then None else Some(minted)
      ensures pair.Some? ==> Db() == Apply(old(Db()), Reread(me))
    {
      var outdated := RereadStamp(me, session);
      if outdated {
        LetOthersRun(others, me);
        RetractMint(me);
        return None;
      }
      return Some(minted);
    }

    /** Exit a tenant, behind the guard: mint the operator's home session first, then revoke the session
        being exited and what it rotated into.  The operator is never left without a session. */
    method LeaveTenant(operator: UserId, sid: SessionId, others: seq<Action>) returns (home: SessionId)
      requires Valid()
      modifies this
      ensures Valid() && old(history) + [Login(operator)] + others <= history
      ensures home == old(|sessions|) < |sessions| && sessions[home].user == operator
      ensures sessions[home].rotatedFrom == None
      ensures others == [] && home != sid ==> sessions[home].Live()
      ensures forall m | 0 <= m < |sessions| && IsExited(sessions, m, operator, sid) :: !sessions[m].Live()
      ensures RevokesExited(ExecFrom(Apply(old(Db()), Login(operator)), others), Db(), operator, sid)
    {
      home := IssueSession(operator);
      ghost var minted := Db();
      Interfere(others);
      RunKeepsRow(minted, others, home);
      ghost var before := Db();
      sessions := RevokeIds(sessions, ExitTargets(sessions, operator, sid), clock);
      Log(before, Revoke(ExitTargets(before.sessions, operator, sid)));
      ExitStepIs(before, operator, sid);
    }

    /** Exit a tenant: the guard demands that the bearer's own session is live when the request comes in.
        The call's last statement revokes exactly the session being exited and what it rotated into; with
        nobody else about, that and a new home session is all that changes. */
    method ExitTenant(operator: UserId, sid: SessionId, others: seq<seq<Action>>)
      returns (home: Option<SessionId>)
      requires Valid() && |others| == 2
      modifies this
      ensures Valid() && old(history) <= history
      ensures home.Some? <==> GuardPasses(old(Db()), operator, sid)
      ensures home.None? ==> Db() == old(Db())
      ensures home.Some? ==>
        && home.value < |sessions| && sessions[home.value].user == operator
        && sessions[home.value].rotatedFrom == None && home.value >= old(|sessions|)
        && (others[1] == [] ==> sessions[home.value].Live())
      ensures home.Some? ==>
        forall m | 0 <= m < |sessions| && IsExited(sessions, m, operator, sid) :: !sessions[m].Live()
      ensures home.Some? ==>
        var before := ExecFrom(Apply(ExecFrom(old(Db()), others[0]), Login(operator)), others[1]);
        RevokesExited(before, Db(), operator, sid)
      ensures home.Some? && Nobody(others) ==> ExitAlone(old(Db()), Db(), operator, sid)
    {
      if !GuardPasses(Db(), operator, sid) { return None; }
      ghost var guarded := Db();
      Interfere(others[0]);
      RunKeepsRow(guarded, others[0], |guarded.sessions| - 1);
      var minted := LeaveTenant(operator, sid, others[1]);
      assert Nobody(others) ==> others[0] == [] && others[1] == [];
      return Some(minted);
    }

    /** Log out everywhere, first statement: the stamp. */
    method StampUsers(me: nat)
      requires Valid() && me < |logouts| && logouts[me].phase == Clocked
      modifies this`stamps, this`logouts, this`history
      ensures Valid() && history == old(history) + [CommitStamp(me)] && Db() == Apply(old(Db()), CommitStamp(me))
      ensures me < |logouts| && logouts[me] == old(logouts[me]).(phase := Stamped)
    {
      ghost var before := Db();
      var now := logouts[me].at;
      stamps := stamps + (map u | u in logouts[me].users :: now);
      logouts := logouts[me := logouts[me].(phase := Stamped)];
      Log(before, CommitStamp(me));
    }

    /** Log out everywhere, second statement: the revoke, and how many rows it hit. */
    method SweepUsers(me: nat) returns (revoked: nat)
      requires Valid() && me < |logouts| && logouts[me].phase == Stamped
      modifies this`sessions, this`logouts, this`history
      ensures Valid() && history == old(history) + [Sweep(me)] && Db() == Apply(old(Db()), Sweep(me))
      ensures me < |logouts| && logouts[me] == old(logouts[me]).(phase := Swept)
      ensures revoked == |LiveRows(old(sessions), logouts[me].users)|
      ensures LiveRows(sessions, logouts[me].users) == {}
      ensures revoked == |set i | 0 <= i < |sessions| && old(sessions)[i].user in logouts[me].users &&
        old(sessions)[i].revokedAt == None|
      ensures |sessions| == old(|sessions|)
      ensures forall i | 0 <= i < |sessions| ::
        sessions[i] == (if old(sessions)[i].user in logouts[me].users && old(sessions)[i].revokedAt == None
                        then old(sessions)[i].(revokedAt := Some(logouts[me].at)) else old(sessions)[i])
    {
      ghost var before := Db();
      revoked := |LiveRows(sessions, logouts[me].users)|;
      assert LiveRows(sessions, logouts[me].users) ==
        set i | 0 <= i < |sessions| && sessions[i].user in logouts[me].users && sessions[i].revokedAt == None;
      sessions := RevokeUsers(sessions, logouts[me].users, logouts[me].at);
      logouts := logouts[me := logouts[me].(phase := Swept)];
      Log(before, Sweep(me));
    }

    /** Both statements of a log-out whose clock is read, with others in the gap before each. */
    method FinishLogout(me: nat, others: seq<seq<Action>>) returns (revoked: nat)
      requires Valid() && me < |logouts| && logouts[me].phase == Clocked && |others| == 2
      requires LogoutByOthers(others[0], me) && LogoutByOthers(others[1], me)
      modifies this
      ensures Valid() && old(history) <= history
      ensures me < |logouts| && logouts[me] == old(logouts[me]).(phase := Swept)
      ensures forall r: nat | r < old(|refreshes|) && old(refreshes[r]).phase.Done? ::
        r < |refreshes| && refreshes[r] == old(refreshes[r])
      ensures Nobody(others) ==> Db() == Apply(Apply(old(Db()), CommitStamp(me)), Sweep(me))
    {
      ghost var start := Db();
      Interfere(others[0]);
      OthersKeepLogout(start, others[0], me);
      DoneStaysDone(start, others[0]);
      StampUsers(me);

      ghost var stamped := Db();
      Interfere(others[1]);
      OthersKeepLogout(stamped, others[1], me);
      DoneStaysDone(stamped, others[1]);
      revoked := SweepUsers(me);
    }

    /** Log out everywhere.  When it returns, no row of its users is live that was created before
        the call, whatever ran in between. */
    method LogoutEverywhere(users: set<UserId>, others: seq<seq<Action>>) returns (revoked: nat)
      requires Valid() && |others| == 3
      requires forall k :: 0 <= k < |others| ==> LogoutByOthers(others[k], |logouts|)
      modifies this
      ensures Valid() && old(history) <= history
      ensures old(|logouts|) < |logouts|
      ensures logouts[old(|logouts|)] == Logout(users, old(clock), Swept)
      ensures forall m | 0 <= m < |sessions| && sessions[m].user in users ::
        sessions[m].createdAt < old(clock) ==> !sessions[m].Live()
    {
      var me := |logouts|;
      ghost var before := Db();
      logouts := logouts + [Logout(users, clock, Clocked)];
      Log(before, StartLogout(users));
      revoked := FinishLogout(me, others[..2]);

      before := Db();
      Interfere(others[2]);
      OthersKeepLogout(before, others[2], me);
      SweptHasEnded(history, me);
    }
  }

  /** A refresh that is done stays as it is, whatever runs. */
  lemma {:induction false} DoneStaysDone(st: State, acts: seq<Action>)
    ensures forall r: nat | r < |st.refreshes| && st.refreshes[r].phase.Done? ::
      r < |ExecFrom(st, acts).refreshes| && ExecFrom(st, acts).refreshes[r] == st.refreshes[r]
  {
    if acts != [] {
      var init, a := acts[..|acts| - 1], acts[|acts| - 1];
      DoneStaysDone(st, init);
      forall r: nat | r < |st.refreshes| && st.refreshes[r].phase.Done?
        ensures r < |ExecFrom(st, acts).refreshes| && ExecFrom(st, acts).refreshes[r] == st.refreshes[r]
      {
        RefreshesStay(ExecFrom(st, init), a);
        RefreshStep(ExecFrom(st, init), a, r);
      }
    }
  }

  lemma SweptHasEnded(history: seq<Action>, me: nat)
    requires me < |Exec(history).logouts| && Exec(history).logouts[me].phase == Swept
    ensures var st := Exec(history);
      forall m: SessionId | m < |st.sessions| && st.sessions[m].user in st.logouts[me].users ::
        st.sessions[m].createdAt < st.logouts[me].at ==> !st.sessions[m].Live()
  {
    var st := Exec(history);
    forall m: SessionId | m < |st.sessions| && st.sessions[m].user in st.logouts[me].users && st.sessions[m].Live()
      ensures st.sessions[m].createdAt >= st.logouts[me].at
    {
      SweepEndsOldSessions(history, me, m);
    }
  }

  lemma PairIsTheSuccessor(history: seq<Action>, me: nat)
    requires me < |Exec(history).refreshes| && Exec(history).refreshes[me].phase.Done?
    ensures var st := Exec(history); var f := st.refreshes[me];
      f.phase.pair.Some? ==>
        && IsSuccessor(st.sessions, f.phase.pair.value, f.token)
        && (forall m: SessionId :: IsSuccessor(st.sessions, m, f.token) ==>
              m == f.phase.pair.value)
        && f.token < |st.sessions| && !st.sessions[f.token].Live()
  {
    var st := Exec(history);
    RunKeepsInv(history);
    assert RefreshOk(st, st.refreshes[me]);
    if st.refreshes[me].phase.pair.Some? {
      assert RowOk(st, st.refreshes[me].phase.pair.value);
    }
  }
}
