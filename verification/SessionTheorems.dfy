/** Safety of session rotation and of "log out everywhere", over every run. */
module SessionTheorems {
  import opened Prelude
  import opened SessionModel
  import opened SessionInvariants

  // ---- Runs and their prefixes ----------------------------------------------------------------

  lemma PrefixKeepsRules(acts: seq<Action>)
    requires acts != []
    ensures Ordered(acts) ==> Ordered(acts[..|acts| - 1])
    ensures Prompt(acts) ==> Prompt(acts[..|acts| - 1])
    ensures Patient(acts) ==> Patient(acts[..|acts| - 1])
    ensures Ordered(acts) ==> OrderedStep(Exec(acts[..|acts| - 1]), acts[|acts| - 1])
    ensures Prompt(acts) ==> PromptStep(Exec(acts[..|acts| - 1]), acts[|acts| - 1])
    ensures Patient(acts) ==> PatientStep(Exec(acts[..|acts| - 1]), acts[|acts| - 1])
  {
    var init := acts[..|acts| - 1];
    forall i | 0 <= i < |init| ensures init[..i] == acts[..i] && init[i] == acts[i] {}
  }

  // ---- Rotation: one chain, one live session ---------------------------------------------------

  /** `a` is `m` itself or a row `m` was rotated from, directly or not. */
  predicate IsAncestor(ss: seq<Session>, a: SessionId, m: SessionId)
    decreases m
  {
    a == m ||
    (m < |ss| && ss[m].rotatedFrom.Some? && ss[m].rotatedFrom.value < m &&
     IsAncestor(ss, a, ss[m].rotatedFrom.value))
  }

  /** The login a row descends from. */
  function Origin(ss: seq<Session>, m: SessionId): (o: SessionId)
    ensures IsAncestor(ss, o, m)
    decreases m
  {
    if m < |ss| && ss[m].rotatedFrom.Some? && ss[m].rotatedFrom.value < m
    then Origin(ss, ss[m].rotatedFrom.value)
    else m
  }

  lemma {:induction false} RotatedRowsAreRevoked(st: State, a: SessionId, m: SessionId)
    requires Inv(st) && m < |st.sessions|
    requires IsAncestor(st.sessions, a, m) && a != m
    ensures a < m && !st.sessions[a].Live()
    decreases m
  {
    assert RowOk(st, m);
    var p := st.sessions[m].rotatedFrom.value;
    if p != a { RotatedRowsAreRevoked(st, a, p); }
  }

  /** The step of a chain just after `a` on the way to `m`. */
  lemma {:induction false} NextInChain(st: State, a: SessionId, m: SessionId) returns (c: SessionId)
    requires Inv(st) && m < |st.sessions|
    requires IsAncestor(st.sessions, a, m) && a != m
    ensures c < |st.sessions| && st.sessions[c].rotatedFrom == Some(a)
    ensures IsAncestor(st.sessions, c, m)
    decreases m
  {
    assert RowOk(st, m);
    var p := st.sessions[m].rotatedFrom.value;
    if p == a { c := m; } else { c := NextInChain(st, a, p); }
  }

  /** Rows of one login form a line, not a tree. */
  lemma {:induction false} ChainIsALine(st: State, m: SessionId, n: SessionId)
    requires Inv(st) && m < |st.sessions| && n < |st.sessions|
    requires Origin(st.sessions, m) == Origin(st.sessions, n)
    ensures IsAncestor(st.sessions, m, n) || IsAncestor(st.sessions, n, m)
    decreases m
  {
    assert RowOk(st, m);
    if st.sessions[m].rotatedFrom.Some? {
      var p := st.sessions[m].rotatedFrom.value;
      ChainIsALine(st, p, n);
      if IsAncestor(st.sessions, p, n) && p != n {
        var c := NextInChain(st, p, n);
        assert c == m;
      }
    }
  }

  /** In every run, a login never has two live sessions. */
  lemma OneLiveSessionPerLogin(acts: seq<Action>, m: SessionId, n: SessionId)
    requires m < |Exec(acts).sessions| && n < |Exec(acts).sessions|
    requires Origin(Exec(acts).sessions, m) == Origin(Exec(acts).sessions, n)
    requires Exec(acts).sessions[m].Live() && Exec(acts).sessions[n].Live()
    ensures m == n
  {
    RunKeepsInv(acts);
    ChainIsALine(Exec(acts), m, n);
    if m != n {
      if IsAncestor(Exec(acts).sessions, m, n) { RotatedRowsAreRevoked(Exec(acts), m, n); }
      else { RotatedRowsAreRevoked(Exec(acts), n, m); }
    }
  }

  /** In every run, any two refreshes of one token that both return a pair return the same pair. */
  lemma RefreshesConverge(acts: seq<Action>, r: nat, q: nat)
    requires var rs := Exec(acts).refreshes;
      && r < |rs| && q < |rs| && rs[r].token == rs[q].token
      && rs[r].phase.Done? && rs[r].phase.pair.Some?
      && rs[q].phase.Done? && rs[q].phase.pair.Some?
    ensures Exec(acts).refreshes[r].phase == Exec(acts).refreshes[q].phase
    ensures Exec(acts).refreshes[r].phase.pair.value < |Exec(acts).sessions|
    ensures Exec(acts).sessions[Exec(acts).refreshes[r].phase.pair.value].rotatedFrom ==
            Some(Exec(acts).refreshes[r].token)
  {
    var st := Exec(acts);
    RunKeepsInv(acts);
    assert RefreshOk(st, st.refreshes[r]) && RefreshOk(st, st.refreshes[q]);
  }

  /** In every run, the look-up of a refresh logs its user out everywhere if and only if the row was revoked
      when the refresh read it, more than five seconds ago by now, and none of its successors is live. */
  lemma ReuseKillIff(acts: seq<Action>, r: nat)
    requires r < |Exec(acts).refreshes| && Exec(acts).refreshes[r].phase.ToLookup?
    ensures Exec(acts).refreshes[r].token < |Exec(acts).sessions|
    ensures var st := Exec(acts); var f := st.refreshes[r]; var s := st.sessions[f.token];
      var kill := && f.phase.seenRevokedAt.Some? && s.revokedAt == f.phase.seenRevokedAt
                  && st.clock > s.revokedAt.value + 5_000
                  && forall m: SessionId :: IsSuccessor(st.sessions, m, f.token) ==> st.sessions[m].revokedAt != None;
      Exec(acts + [Lookup(r)]).logouts == st.logouts + if kill then [Logout({s.user}, st.clock, Clocked)] else []
  {
    var st := Exec(acts);
    RunKeepsInv(acts);
    assert (acts + [Lookup(r)])[..|acts|] == acts;
    assert RefreshOk(st, st.refreshes[r]);
    var token := st.refreshes[r].token;
    forall m: SessionId | IsSuccessor(st.sessions, m, token) && st.sessions[m].Live()
      ensures LiveSuccessor(st.sessions, token, 0).Some?
    {
    }
  }

  lemma StepKeepsRevoked(st: State, a: Action, m: SessionId)
    requires m < |st.sessions| && st.sessions[m].revokedAt.Some?
    ensures m < |Apply(st, a).sessions| && Apply(st, a).sessions[m] == st.sessions[m]
  {
  }

  /** In every run, a revoked session stays exactly as it is: nothing brings it back, extends it or revokes it
      again. */
  lemma {:induction false} RevokedIsFinal(st: State, acts: seq<Action>, m: SessionId)
    requires m < |st.sessions| && st.sessions[m].revokedAt.Some?
    ensures m < |ExecFrom(st, acts).sessions| && ExecFrom(st, acts).sessions[m] == st.sessions[m]
  {
    if acts != [] {
      RevokedIsFinal(st, acts[..|acts| - 1], m);
      StepKeepsRevoked(ExecFrom(st, acts[..|acts| - 1]), acts[|acts| - 1], m);
    }
  }

  /** The rows exit-tenant revokes: of the operator's own, the session being exited and what it rotated
      into. */
  function ExitTargets(ss: seq<Session>, operator: UserId, sid: SessionId): set<SessionId> {
    set i | 0 <= i < |ss| && (i == sid || ss[i].rotatedFrom == Some(sid)) && ss[i].user == operator
  }

  /** The request guard lets a bearer through while the row its token names is live and not expired. */
  predicate GuardPasses(st: State, operator: UserId, sid: SessionId) {
    sid < |st.sessions| && st.sessions[sid].user == operator && st.sessions[sid].Live() &&
    st.clock < st.sessions[sid].expiresAt
  }

  ghost predicate LineageIsDead(ss: seq<Session>, sid: SessionId) {
    forall m: SessionId | m < |ss| && IsAncestor(ss, sid, m) :: !ss[m].Live()
  }

  /** A live row two or more rotations after `sid`. */
  ghost predicate RotatedTwiceLive(ss: seq<Session>, sid: SessionId) {
    exists p: SessionId, m: SessionId ::
      IsSuccessor(ss, p, sid) && p < m < |ss| && IsAncestor(ss, p, m) && ss[m].Live()
  }

  /** In every run, exit-tenant ends the lineage of the operator's session exactly when no live row is two
      or more rotations later. */
  lemma ExitEndsLineageUnlessRotatedTwice(acts: seq<Action>, operator: UserId, sid: SessionId)
    requires sid < |Exec(acts).sessions| && Exec(acts).sessions[sid].user == operator
    ensures var ss := Exec(acts).sessions;
      var exited := Apply(Exec(acts), Revoke(ExitTargets(ss, operator, sid))).sessions;
      LineageIsDead(exited, sid) <==> !RotatedTwiceLive(ss, sid)
  {
    RunKeepsInv(acts);
    var st := Exec(acts);
    var exited := Apply(st, Revoke(ExitTargets(st.sessions, operator, sid))).sessions;
    ExitRevokes(st, operator, sid);
    if LineageIsDead(exited, sid) {
      NoneRotatedTwice(st, exited, sid);
    } else {
      SurvivorIsRotatedTwice(st, exited, sid);
    }
  }

  /** When the guard let the request through after the first `n` steps, every rotation of the exited session
      came after the guard: what survives has slipped in between the guard and the revoke. */
  lemma SurvivorsRotatedAfterTheGuard(acts: seq<Action>, n: nat, operator: UserId, sid: SessionId, m: SessionId)
    requires n <= |acts| && GuardPasses(Exec(acts[..n]), operator, sid)
    requires m < |Exec(acts).sessions| && IsAncestor(Exec(acts).sessions, sid, m) && m != sid
    ensures m >= |Exec(acts[..n]).sessions|
  {
    RunKeepsInv(acts);
    RunKeepsInv(acts[..n]);
    RowsOfPrefix(acts, n);
    var p := NextInChain(Exec(acts), sid, m);
    if p < |Exec(acts[..n]).sessions| { RotatedIsNotLive(Exec(acts[..n]), Exec(acts), sid, p); }
    if p != m { RotatedRowsAreRevoked(Exec(acts), p, m); }
  }

  lemma RotatedIsNotLive(st: State, st': State, sid: SessionId, p: SessionId)
    requires Inv(st) && RowKept(st, st', p) && IsSuccessor(st'.sessions, p, sid)
    ensures sid < |st.sessions| && !st.sessions[sid].Live()
  {
    assert RowOk(st, p);
  }

  /** Rows are never deleted, and what they rotated from never changes. */
  lemma RowsOfPrefix(acts: seq<Action>, n: nat)
    requires n <= |acts|
    ensures forall i: SessionId | i < |Exec(acts[..n]).sessions| :: RowKept(Exec(acts[..n]), Exec(acts), i)
  {
    assert acts == acts[..n] + acts[n..];
    ExecInTwo(Init, acts[..n], acts[n..]);
    forall i: SessionId | i < |Exec(acts[..n]).sessions| ensures RowKept(Exec(acts[..n]), Exec(acts), i) {
      RunKeepsRow(Exec(acts[..n]), acts[n..], i);
    }
  }

  /** `tt` is `ss` with the session and its successor revoked. */
  ghost predicate Exited(ss: seq<Session>, tt: seq<Session>, sid: SessionId) {
    |tt| == |ss| && forall i | 0 <= i < |ss| ::
      && tt[i].rotatedFrom == ss[i].rotatedFrom
      && (tt[i].Live() <==> ss[i].Live() && i != sid && ss[i].rotatedFrom != Some(sid))
  }

  /** The rows it rotated into are the operator's too. */
  lemma ExitRevokes(st: State, operator: UserId, sid: SessionId)
    requires Inv(st) && sid < |st.sessions| && st.sessions[sid].user == operator
    ensures Exited(st.sessions, Apply(st, Revoke(ExitTargets(st.sessions, operator, sid))).sessions, sid)
  {
    forall i | 0 <= i < |st.sessions| && st.sessions[i].rotatedFrom == Some(sid)
      ensures st.sessions[i].user == operator
    {
      assert RowOk(st, i);
    }
  }

  lemma NoneRotatedTwice(st: State, tt: seq<Session>, sid: SessionId)
    requires Inv(st) && Exited(st.sessions, tt, sid) && LineageIsDead(tt, sid)
    ensures !RotatedTwiceLive(st.sessions, sid)
  {
    var ss := st.sessions;
    forall p: SessionId, m: SessionId | IsSuccessor(ss, p, sid) && p < m < |ss| && IsAncestor(ss, p, m)
      ensures !ss[m].Live()
    {
      assert RowOk(st, p);
      assert IsAncestor(ss, sid, p);
      AncestryIsTransitive(ss, sid, p, m);
      AncestryIgnoresRevokes(ss, tt, sid, m);
      assert ss[m].rotatedFrom != Some(sid);
      assert !tt[m].Live();
    }
  }

  lemma SurvivorIsRotatedTwice(st: State, tt: seq<Session>, sid: SessionId)
    requires Inv(st) && Exited(st.sessions, tt, sid) && !LineageIsDead(tt, sid)
    ensures RotatedTwiceLive(st.sessions, sid)
  {
    var m: SessionId :| m < |tt| && IsAncestor(tt, sid, m) && tt[m].Live();
    AncestryIgnoresRevokes(st.sessions, tt, sid, m);
    var p := NextInChain(st, sid, m);
    if p != m { RotatedRowsAreRevoked(st, p, m); }
  }

  lemma {:induction false} AncestryIgnoresRevokes(ss: seq<Session>, tt: seq<Session>, a: SessionId,
                                                  m: SessionId)
    requires |ss| == |tt|
    requires forall i :: 0 <= i < |ss| ==> ss[i].rotatedFrom == tt[i].rotatedFrom
    ensures IsAncestor(ss, a, m) <==> IsAncestor(tt, a, m)
    decreases m
  {
    if m < |ss| && ss[m].rotatedFrom.Some? && ss[m].rotatedFrom.value < m {
      AncestryIgnoresRevokes(ss, tt, a, ss[m].rotatedFrom.value);
    }
  }

  lemma {:induction false} AncestryIsTransitive(ss: seq<Session>, a: SessionId, b: SessionId,
                                                m: SessionId)
    requires IsAncestor(ss, a, b) && IsAncestor(ss, b, m)
    ensures IsAncestor(ss, a, m)
    decreases m
  {
    if b != m { AncestryIsTransitive(ss, a, b, ss[m].rotatedFrom.value); }
  }

  // ---- "Log out everywhere": the one-step theorem ----------------------------------------------

  ghost predicate Effective(l: Logout) { l.phase == Stamped || l.phase == Swept }

  ghost predicate StampsHold(st: State) {
    forall j, u | 0 <= j < |st.logouts| && Effective(st.logouts[j]) && u in st.logouts[j].users ::
      u in st.stamps && st.logouts[j].at <= st.stamps[u]
  }

  /** A logout keeps its users and its clock reading; only its own two steps move it. */
  ghost predicate LogoutMoves(st: State, a: Action, st': State, j: nat) {
    j < |st'.logouts| &&
    var l' := st'.logouts[j];
    if j >= |st.logouts| then l'.phase == Clocked
    else var l := st.logouts[j];
      && l'.users == l.users && l'.at == l.at
      && (l'.phase != l.phase ==>
            || (a == CommitStamp(j) && l.phase == Clocked && l'.phase == Stamped)
            || (a == Sweep(j) && l.phase == Stamped && l'.phase == Swept))
  }

  lemma LogoutStep(st: State, a: Action, j: nat)
    requires j < |Apply(st, a).logouts|
    ensures LogoutMoves(st, a, Apply(st, a), j)
  {
  }

  /** A refresh keeps its token; only its own steps move it, and each phase only where the source
      goes next. */
  ghost predicate RefreshMoves(st: State, a: Action, st': State, r: nat) {
    r < |st'.refreshes| &&
    var f' := st'.refreshes[r];
    if r >= |st.refreshes| then a == Present(f'.token) && f'.phase == FirstPhase(st, f'.token)
    else var f := st.refreshes[r];
      && f'.token == f.token
      && (f'.phase != f.phase ==>
            match f'.phase
            case ToClaim => false
            case Claimed => f.phase == ToClaim
            case ToReread(m) => a == Mint(r) && f.phase == Claimed && m == |st.sessions|
            case ToRetract(m) => f.phase == ToReread(m)
            case ToLookup(_) => f.phase == ToClaim
            case Done(_) =>
              && !f.phase.ToClaim? && !f.phase.Done?
              && (f.phase.ToReread? ==>
                    a == Reread(r) && At(st, r) && !Outdated(st, st.sessions[f.token]))
              && (f.phase.ToRetract? && f.phase.minted < |st'.sessions| ==>
                    !st'.sessions[f.phase.minted].Live()))
  }

  lemma RefreshStep(st: State, a: Action, r: nat)
    requires r < |Apply(st, a).refreshes|
    ensures RefreshMoves(st, a, Apply(st, a), r)
  {
  }

  /** Only a logout's stamp step writes the stamps. */
  ghost predicate StampsMove(st: State, a: Action, st': State) {
    || st'.stamps == st.stamps
    || (a.CommitStamp? && a.logout < |st.logouts| && st.logouts[a.logout].phase == Clocked
        && st'.stamps ==
             st.stamps + (map u | u in st.logouts[a.logout].users :: st.logouts[a.logout].at))
  }

  /** A stamped logout's own users carry at least its stamp. */
  ghost predicate OwnStamps(st: State, a: Action, st': State) {
    a.CommitStamp? && a.logout < |st.logouts| && st.logouts[a.logout].phase == Clocked ==>
      forall u | u in st.logouts[a.logout].users ::
        u in st'.stamps && st'.stamps[u] == st.logouts[a.logout].at
  }

  lemma StampsStep(st: State, a: Action)
    ensures StampsMove(st, a, Apply(st, a)) && OwnStamps(st, a, Apply(st, a))
  {
  }

  lemma StampsStayAbove(st: State, a: Action, st': State)
    requires StampsHold(st) && OrderedStep(st, a)
    requires StampsMove(st, a, st') && OwnStamps(st, a, st')
    requires forall j: nat | j < |st'.logouts| :: LogoutMoves(st, a, st', j)
    ensures StampsHold(st')
  {
    forall j, u | 0 <= j < |st'.logouts| && Effective(st'.logouts[j]) && u in st'.logouts[j].users
      ensures u in st'.stamps && st'.logouts[j].at <= st'.stamps[u]
    {
      assert LogoutMoves(st, a, st', j);
      assert Effective(st.logouts[j]) || a == CommitStamp(j);
    }
  }

  lemma StepKeepsStamps(st: State, a: Action)
    requires StampsHold(st) && OrderedStep(st, a)
    ensures StampsHold(Apply(st, a))
  {
    forall j: nat | j < |Apply(st, a).logouts| ensures LogoutMoves(st, a, Apply(st, a), j) {
      LogoutStep(st, a, j);
    }
    StampsStep(st, a);
    StampsStayAbove(st, a, Apply(st, a));
  }

  /** Row `m` was rotated from a row older than `t`. */
  ghost predicate FromBefore(ss: seq<Session>, m: SessionId, t: Time) {
    && m < |ss| && ss[m].rotatedFrom.Some? && ss[m].rotatedFrom.value < |ss|
    && ss[ss[m].rotatedFrom.value].createdAt < t
  }

  ghost predicate Screened(st: State, l: Logout) {
    l.phase == Swept ==>
      forall m | 0 <= m < |st.sessions| && st.sessions[m].user in l.users ::
        st.sessions[m].Live() && FromBefore(st.sessions, m, l.at) ==> Pending(st, m)
  }

  ghost predicate AllScreened(st: State) {
    forall j :: 0 <= j < |st.logouts| ==> Screened(st, st.logouts[j])
  }

  /** Rows are immutable but for their expiry and their revocation, and are never deleted. */
  ghost predicate RowKept(st: State, st': State, m: SessionId) {
    m < |st.sessions| && m < |st'.sessions| &&
    var s, s' := st.sessions[m], st'.sessions[m];
    && s'.user == s.user && s'.createdAt == s.createdAt && s'.rotatedFrom == s.rotatedFrom
    && (s'.Live() ==> s.Live())
  }

  lemma StepKeepsRow(st: State, a: Action, m: SessionId)
    requires m < |st.sessions|
    ensures RowKept(st, Apply(st, a), m)
  {
  }

  lemma {:induction false} RunKeepsRow(st: State, acts: seq<Action>, m: SessionId)
    requires m < |st.sessions|
    ensures RowKept(st, ExecFrom(st, acts), m)
  {
    if acts != [] {
      var init := acts[..|acts| - 1];
      RunKeepsRow(st, init, m);
      StepKeepsRow(ExecFrom(st, init), acts[|acts| - 1], m);
    }
  }

  lemma {:induction false} ExecInTwo(st: State, a: seq<Action>, b: seq<Action>)
    ensures ExecFrom(st, a + b) == ExecFrom(ExecFrom(st, a), b)
    decreases |b|
  {
    if b == [] {
      assert a + b == a;
    } else {
      assert (a + b)[..|a + b| - 1] == a + b[..|b| - 1];
      ExecInTwo(st, a, b[..|b| - 1]);
    }
  }

  /** The step is a re-read that row `m` passes. */
  ghost predicate PassesReread(st: State, a: Action, m: SessionId) {
    && a.Reread? && At(st, a.refresh)
    && IsSuccessor(st.sessions, m, st.refreshes[a.refresh].token)
    && !Outdated(st, st.sessions[st.refreshes[a.refresh].token])
  }

  /** A live row stops being pending only by passing its re-read. */
  lemma PendingEnds(st: State, a: Action, m: SessionId)
    requires Inv(st) && Pending(st, m)
    requires m < |Apply(st, a).sessions| && Apply(st, a).sessions[m].Live()
    ensures Pending(Apply(st, a), m) || PassesReread(st, a, m)
  {
    var r: nat :| PendingAt(st, r, m);
    RefreshesStay(st, a);
    RefreshStep(st, a, r);
    PendingAtEnds(st, a, Apply(st, a), r, m);
  }

  lemma RefreshesStay(st: State, a: Action)
    ensures |st.refreshes| <= |Apply(st, a).refreshes|
  {
  }

  lemma PendingAtEnds(st: State, a: Action, st': State, r: nat, m: SessionId)
    requires Inv(st) && PendingAt(st, r, m)
    requires m < |st'.sessions| && st'.sessions[m].Live()
    requires RefreshMoves(st, a, st', r)
    ensures Pending(st', m) || PassesReread(st, a, m)
  {
    assert RefreshOk(st, st.refreshes[r]);
    if st'.refreshes[r].phase == st.refreshes[r].phase || st'.refreshes[r].phase == ToRetract(m) {
      assert PendingAt(st', r, m);
    }
  }

  lemma MintIsPending(st: State, a: Action, m: SessionId)
    requires |st.sessions| <= m < |Apply(st, a).sessions|
    ensures Apply(st, a).sessions[m].rotatedFrom.None? || Pending(Apply(st, a), m)
  {
    if a.Mint? { assert PendingAt(Apply(st, a), a.refresh, m); }
  }

  ghost predicate Sweeps(st: State, a: Action, j: nat) {
    a == Sweep(j) && j < |st.logouts| && st.logouts[j].phase == Stamped
  }

  lemma StaysScreened(st: State, a: Action, st': State, j: nat, m: SessionId)
    requires Inv(st) && StampsHold(st) && AllScreened(st) && LogoutMoves(st, a, st', j)
    requires forall i: nat | i < |st.sessions| :: RowKept(st, st', i)
    requires Sweeps(st, a, j) ==> forall i | 0 <= i < |st'.sessions| ::
      st'.sessions[i].user in st'.logouts[j].users ==> !st'.sessions[i].Live()
    requires st'.logouts[j].phase == Swept
    requires m < |st.sessions| && m < |st'.sessions|
    requires st'.sessions[m].user in st'.logouts[j].users
    requires st'.sessions[m].Live() && FromBefore(st'.sessions, m, st'.logouts[j].at)
    ensures Pending(st, m) && !PassesReread(st, a, m)
  {
    assert RowOk(st, m) && RowKept(st, st', m);
    assert RowKept(st, st', st.sessions[m].rotatedFrom.value);
    assert Screened(st, st.logouts[j]);
  }

  lemma StepKeepsScreening(st: State, a: Action)
    requires Inv(st) && StampsHold(st) && AllScreened(st)
    ensures AllScreened(Apply(st, a))
  {
    forall i: nat | i < |st.sessions| ensures RowKept(st, Apply(st, a), i) {
      StepKeepsRow(st, a, i);
    }
    forall j: nat | j < |Apply(st, a).logouts| && Apply(st, a).logouts[j].phase == Swept
      ensures Screened(Apply(st, a), Apply(st, a).logouts[j])
    {
      LogoutStep(st, a, j);
      SweepStep(st, a, j);
      forall m | 0 <= m < |Apply(st, a).sessions| &&
        Apply(st, a).sessions[m].user in Apply(st, a).logouts[j].users &&
        Apply(st, a).sessions[m].Live() &&
        FromBefore(Apply(st, a).sessions, m, Apply(st, a).logouts[j].at)
        ensures Pending(Apply(st, a), m)
      {
        if m >= |st.sessions| {
          MintIsPending(st, a, m);
        } else {
          StaysScreened(st, a, Apply(st, a), j, m);
          PendingEnds(st, a, m);
        }
      }
    }
  }

  /** A sweep leaves no live row of its users. */
  lemma SweepStep(st: State, a: Action, j: nat)
    requires j < |Apply(st, a).logouts| && Apply(st, a).logouts[j].phase == Swept
    ensures Sweeps(st, a, j) ==> forall i | 0 <= i < |Apply(st, a).sessions| ::
      Apply(st, a).sessions[i].user in Apply(st, a).logouts[j].users ==>
      !Apply(st, a).sessions[i].Live()
  {
  }

  lemma {:induction false} OrderedRunScreens(acts: seq<Action>)
    requires Ordered(acts)
    ensures StampsHold(Exec(acts)) && AllScreened(Exec(acts))
  {
    if acts != [] {
      var init := acts[..|acts| - 1];
      PrefixKeepsRules(acts);
      OrderedRunScreens(init);
      RunKeepsInv(init);
      StepKeepsStamps(Exec(init), acts[|acts| - 1]);
      StepKeepsScreening(Exec(init), acts[|acts| - 1]);
    }
  }

  /** In every run, once a logout has swept, no session of its users created before its clock
      reading is live. */
  lemma SweepEndsOldSessions(acts: seq<Action>, j: nat, m: SessionId)
    requires j < |Exec(acts).logouts| && Exec(acts).logouts[j].phase == Swept
    requires m < |Exec(acts).sessions|
    requires Exec(acts).sessions[m].user in Exec(acts).logouts[j].users
    requires Exec(acts).sessions[m].Live()
    ensures Exec(acts).sessions[m].createdAt >= Exec(acts).logouts[j].at
  {
    RunKeepsInv(acts);
    assert LogoutOk(Exec(acts), Exec(acts).logouts[j]);
  }

  /** In every run whose stamps never go back, once a logout has swept, a live refreshed session of
      its users is still pending or was rotated from a row no older than the logout. */
  lemma LogoutScreensSuccessors(acts: seq<Action>, j: nat, m: SessionId)
    requires Ordered(acts)
    requires var st := Exec(acts);
      && j < |st.logouts| && st.logouts[j].phase == Swept
      && m < |st.sessions| && st.sessions[m].user in st.logouts[j].users
      && st.sessions[m].Live() && st.sessions[m].rotatedFrom.Some?
    ensures var st := Exec(acts);
      || Pending(st, m)
      || (st.sessions[m].rotatedFrom.value < |st.sessions| &&
          st.sessions[st.sessions[m].rotatedFrom.value].createdAt >= st.logouts[j].at)
  {
    OrderedRunScreens(acts);
    RunKeepsInv(acts);
    assert RowOk(Exec(acts), m);
    assert Screened(Exec(acts), Exec(acts).logouts[j]);
  }

  // ---- "Log out everywhere": the whole ancestry -------------------------------------------------

  /** Someone already relies on the row: it is live and settled, was rotated, or is being rotated. */
  ghost predicate Trusted(st: State, m: SessionId)
  {
    m < |st.sessions| &&
    ((st.sessions[m].Live() && !Pending(st, m))
     || !Unsucceeded(st.sessions, m)
     || Rotating(st, m))
  }

  ghost predicate Rotating(st: State, m: SessionId) {
    exists r :: RotatingAt(st, r, m)
  }

  ghost predicate RotatingAt(st: State, r: nat, m: SessionId) {
    r < |st.refreshes| && st.refreshes[r].token == m &&
    (st.refreshes[r].phase == ToClaim || st.refreshes[r].phase == Claimed)
  }

  /** A pending row is neither rotated nor being rotated. */
  ghost predicate PendingUntouched(st: State) {
    forall m :: Pending(st, m) ==> Unsucceeded(st.sessions, m) && !Rotating(st, m)
  }

  ghost predicate CleanBehind(st: State, l: Logout) {
    Effective(l) ==>
      forall m: SessionId | Trusted(st, m) && st.sessions[m].user in l.users ::
        st.sessions[m].createdAt >= l.at ==> !FromBefore(st.sessions, m, l.at)
  }

  ghost predicate AllCleanBehind(st: State) {
    forall j :: 0 <= j < |st.logouts| ==> CleanBehind(st, st.logouts[j])
  }

  lemma RotatingComesFrom(st: State, a: Action, m: SessionId)
    requires Inv(st) && Rotating(Apply(st, a), m)
    ensures m < |st.sessions|
    ensures Rotating(st, m) || (a == Present(m) && st.sessions[m].Live())
  {
    var st' := Apply(st, a);
    var r: nat :| RotatingAt(st', r, m);
    RefreshStep(st, a, r);
    if r < |st.refreshes| {
      assert RefreshOk(st, st.refreshes[r]);
      assert RotatingAt(st, r, m);
    }
  }

  lemma SuccessionComesFrom(st: State, a: Action, m: SessionId)
    requires Inv(st) && m < |st.sessions|
    requires Unsucceeded(st.sessions, m) && !Unsucceeded(Apply(st, a).sessions, m)
    ensures Rotating(st, m) && a.Mint?
  {
    var st' := Apply(st, a);
    var i :| 0 <= i < |st'.sessions| && st'.sessions[i].rotatedFrom == Some(m);
    if i < |st.sessions| { StepKeepsRow(st, a, i); }
    else { assert a.Mint?; assert RotatingAt(st, a.refresh, m); }
  }

  lemma PendingComesFrom(st: State, a: Action, m: SessionId)
    requires Inv(st) && Pending(Apply(st, a), m) && !Pending(st, m)
    ensures m == |st.sessions| && |Apply(st, a).sessions| == m + 1 && a.Mint?
  {
    var st' := Apply(st, a);
    var r: nat :| PendingAt(st', r, m);
    RefreshStep(st, a, r);
    assert r >= |st.refreshes| || !PendingAt(st, r, m);
  }

  /** Nothing yet points at a row that does not exist. */
  lemma NewRowUntouched(st: State, a: Action)
    requires Inv(st) && a.Mint? && |Apply(st, a).sessions| == |st.sessions| + 1
    ensures Unsucceeded(Apply(st, a).sessions, |st.sessions|)
    ensures !Rotating(Apply(st, a), |st.sessions|)
  {
    var st' := Apply(st, a);
    StepKeepsInv(st, a);
    forall i | 0 <= i < |st'.sessions| ensures st'.sessions[i].rotatedFrom != Some(|st.sessions|) {
      assert RowOk(st', i);
    }
    if Rotating(st', |st.sessions|) { RotatingComesFrom(st, a, |st.sessions|); }
  }

  lemma StepKeepsPendingUntouched(st: State, a: Action)
    requires Inv(st) && PendingUntouched(st) && PatientStep(st, a)
    ensures PendingUntouched(Apply(st, a))
  {
    var st' := Apply(st, a);
    forall m | Pending(st', m) ensures Unsucceeded(st'.sessions, m) && !Rotating(st', m) {
      if Pending(st, m) {
        var r: nat :| PendingAt(st, r, m);
        assert RefreshOk(st, st.refreshes[r]);
        if !Unsucceeded(st'.sessions, m) { SuccessionComesFrom(st, a, m); }
        if Rotating(st', m) { RotatingComesFrom(st, a, m); }
      } else {
        PendingComesFrom(st, a, m);
        NewRowUntouched(st, a);
      }
    }
  }

  /** A row becomes trusted only by passing its re-read, or by being a fresh login. */
  lemma TrustComesFrom(st: State, a: Action, m: SessionId)
    requires Inv(st) && PendingUntouched(st) && PatientStep(st, a)
    requires Trusted(Apply(st, a), m)
    ensures || Trusted(st, m)
            || (m >= |st.sessions| && Apply(st, a).sessions[m].rotatedFrom.None?)
            || PassesReread(st, a, m)
  {
    var st' := Apply(st, a);
    if m >= |st.sessions| {
      if a.Mint? { NewRowUntouched(st, a); MintIsPending(st, a, m); }
    } else {
      StepKeepsRow(st, a, m);
      if Rotating(st', m) { RotatingComesFrom(st, a, m); }
      else if !Unsucceeded(st'.sessions, m) {
        if Unsucceeded(st.sessions, m) { SuccessionComesFrom(st, a, m); }
      } else if Pending(st, m) {
        PendingEnds(st, a, m);
      }
    }
  }

  lemma StaysClean(st: State, a: Action, st': State, j: nat, m: SessionId)
    requires Inv(st) && StampsHold(st) && AllCleanBehind(st) && PromptStep(st, a)
    requires LogoutMoves(st, a, st', j) && Effective(st'.logouts[j])
    requires forall i: nat | i < |st.sessions| :: RowKept(st, st', i)
    requires m < |st.sessions| && (Trusted(st, m) || PassesReread(st, a, m))
    requires m < |st'.sessions| && st'.sessions[m].user in st'.logouts[j].users
    requires st'.sessions[m].createdAt >= st'.logouts[j].at
    ensures !FromBefore(st'.sessions, m, st'.logouts[j].at)
  {
    assert RowOk(st, m) && RowKept(st, st', m);
    if st.sessions[m].rotatedFrom.Some? {
      assert RowKept(st, st', st.sessions[m].rotatedFrom.value);
      if j < |st.logouts| && Effective(st.logouts[j]) {
        assert CleanBehind(st, st.logouts[j]);
      }
    }
  }

  lemma StepKeepsClean(st: State, a: Action)
    requires Inv(st) && StampsHold(st) && PendingUntouched(st) && AllCleanBehind(st)
    requires PatientStep(st, a) && PromptStep(st, a)
    ensures AllCleanBehind(Apply(st, a))
  {
    forall i: nat | i < |st.sessions| ensures RowKept(st, Apply(st, a), i) {
      StepKeepsRow(st, a, i);
    }
    forall j: nat | j < |Apply(st, a).logouts| && Effective(Apply(st, a).logouts[j])
      ensures CleanBehind(Apply(st, a), Apply(st, a).logouts[j])
    {
      LogoutStep(st, a, j);
      forall m: SessionId | Trusted(Apply(st, a), m) &&
        Apply(st, a).sessions[m].user in Apply(st, a).logouts[j].users &&
        Apply(st, a).sessions[m].createdAt >= Apply(st, a).logouts[j].at
        ensures !FromBefore(Apply(st, a).sessions, m, Apply(st, a).logouts[j].at)
      {
        TrustComesFrom(st, a, m);
        if m < |st.sessions| { StaysClean(st, a, Apply(st, a), j, m); }
      }
    }
  }

  lemma {:induction false} CarefulRunIsClean(acts: seq<Action>)
    requires Ordered(acts) && Prompt(acts) && Patient(acts)
    ensures PendingUntouched(Exec(acts)) && AllCleanBehind(Exec(acts))
  {
    if acts != [] {
      var init := acts[..|acts| - 1];
      PrefixKeepsRules(acts);
      CarefulRunIsClean(init);
      RunKeepsInv(init);
      OrderedRunScreens(init);
      StepKeepsPendingUntouched(Exec(init), acts[|acts| - 1]);
      StepKeepsClean(Exec(init), acts[|acts| - 1]);
    }
  }

  lemma {:induction false} AncestryIsClean(st: State, l: Logout, a: SessionId, m: SessionId)
    requires Inv(st) && CleanBehind(st, l) && Effective(l)
    requires Trusted(st, m) && st.sessions[m].user in l.users && st.sessions[m].createdAt >= l.at
    requires IsAncestor(st.sessions, a, m)
    ensures a < |st.sessions| && st.sessions[a].createdAt >= l.at
    decreases m
  {
    if a != m {
      assert RowOk(st, m);
      var p := st.sessions[m].rotatedFrom.value;
      assert !FromBefore(st.sessions, m, l.at);
      assert !Unsucceeded(st.sessions, p);
      AncestryIsClean(st, l, a, p);
    }
  }

  /** In every run that keeps the three rules, once a logout has swept, every row of the whole
      rotation ancestry of a live, settled session of its users was created at or after it. */
  lemma LogoutClearsAncestry(acts: seq<Action>, j: nat, m: SessionId, a: SessionId)
    requires Ordered(acts) && Prompt(acts) && Patient(acts)
    requires var st := Exec(acts);
      && j < |st.logouts| && st.logouts[j].phase == Swept
      && m < |st.sessions| && st.sessions[m].user in st.logouts[j].users
      && st.sessions[m].Live() && !Pending(st, m)
      && IsAncestor(st.sessions, a, m)
    ensures a < |Exec(acts).sessions|
    ensures Exec(acts).sessions[a].createdAt >= Exec(acts).logouts[j].at
  {
    var st := Exec(acts);
    RunKeepsInv(acts);
    CarefulRunIsClean(acts);
    SweepEndsOldSessions(acts, j, m);
    assert CleanBehind(st, st.logouts[j]);
    AncestryIsClean(st, st.logouts[j], a, m);
  }
}
