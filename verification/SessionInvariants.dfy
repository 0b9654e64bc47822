/** What every run of the session protocol keeps, one step at a time. */
module SessionInvariants {
  import opened Prelude
  import opened SessionModel

  // ---- Rows -----------------------------------------------------------------------------------

  /** A row is never newer than the clock, and its predecessor is an older, revoked row of the same
      user. */
  ghost predicate RowOk(st: State, i: SessionId)
    requires i < |st.sessions|
  {
    var s := st.sessions[i];
    && s.createdAt <= st.clock
    && (s.rotatedFrom.Some? ==>
          var p := s.rotatedFrom.value;
          && p < i
          && !st.sessions[p].Live()
          && st.sessions[p].user == s.user
          && st.sessions[p].createdAt <= s.createdAt)
  }

  ghost predicate OneSuccessor(ss: seq<Session>) {
    forall i, j :: 0 <= i < j < |ss| && ss[i].rotatedFrom.Some? ==>
      ss[i].rotatedFrom != ss[j].rotatedFrom
  }

  // ---- Refreshes ------------------------------------------------------------------------------

  ghost predicate Unsucceeded(ss: seq<Session>, p: SessionId) {
    forall m :: 0 <= m < |ss| ==> ss[m].rotatedFrom != Some(p)
  }

  ghost predicate RefreshOk(st: State, r: Refresh) {
    && (r.phase != Done(None) ==> r.token < |st.sessions|)
    && match r.phase
       case ToClaim => true
       case Claimed =>
         !st.sessions[r.token].Live() && Unsucceeded(st.sessions, r.token)
       case ToReread(m) => IsSuccessor(st.sessions, m, r.token)
       case ToRetract(m) => IsSuccessor(st.sessions, m, r.token)
       case ToLookup(seen) => seen.Some? ==> st.sessions[r.token].revokedAt == seen
       case Done(pair) => pair.Some? ==> IsSuccessor(st.sessions, pair.value, r.token)
  }

  /** No two refreshes hold the claim of one row. */
  ghost predicate OneClaimant(rs: seq<Refresh>) {
    forall i, j :: 0 <= i < j < |rs| && rs[i].phase.Claimed? && rs[j].phase.Claimed? ==>
      rs[i].token != rs[j].token
  }

  // ---- Logouts --------------------------------------------------------------------------------

  /** After its sweep, a logout leaves no row of its users from before its clock reading alive. */
  ghost predicate LogoutOk(st: State, l: Logout) {
    && l.at <= st.clock
    && (l.phase == Swept ==>
          forall i | 0 <= i < |st.sessions| ::
            st.sessions[i].user in l.users && st.sessions[i].createdAt < l.at ==>
            !st.sessions[i].Live())
  }

  ghost predicate Inv(st: State) {
    && (forall i :: 0 <= i < |st.sessions| ==> RowOk(st, i))
    && OneSuccessor(st.sessions)
    && (forall r :: 0 <= r < |st.refreshes| ==> RefreshOk(st, st.refreshes[r]))
    && OneClaimant(st.refreshes)
    && (forall j :: 0 <= j < |st.logouts| ==> LogoutOk(st, st.logouts[j]))
  }

  // ---- Preservation ---------------------------------------------------------------------------

  /** Revoking rows and moving the clock or an expiry, and nothing else. */
  ghost predicate OnlyRevokes(st: State, st': State) {
    && |st'.sessions| == |st.sessions|
    && st.clock <= st'.clock
    && forall i :: 0 <= i < |st.sessions| ==>
         var s, s' := st.sessions[i], st'.sessions[i];
         && s'.user == s.user && s'.createdAt == s.createdAt && s'.rotatedFrom == s.rotatedFrom
         && (s.revokedAt.Some? ==> s'.revokedAt == s.revokedAt)
  }

  lemma RevokesKeepRows(st: State, st': State)
    requires Inv(st) && OnlyRevokes(st, st')
    ensures forall i :: 0 <= i < |st'.sessions| ==> RowOk(st', i)
    ensures OneSuccessor(st'.sessions)
    ensures forall r :: RefreshOk(st, r) ==> RefreshOk(st', r)
    ensures forall l :: LogoutOk(st, l) ==> LogoutOk(st', l)
  {
    forall i | 0 <= i < |st'.sessions| ensures RowOk(st', i) {
      assert RowOk(st, i);
    }
    forall r | RefreshOk(st, r) ensures RefreshOk(st', r) {
      if r.phase.Claimed? {
        forall m | 0 <= m < |st'.sessions| ensures st'.sessions[m].rotatedFrom != Some(r.token) {
          assert st'.sessions[m].rotatedFrom == st.sessions[m].rotatedFrom;
        }
      }
    }
  }

  lemma MintKeepsRows(st: State, user: UserId, from: Option<SessionId>)
    requires Inv(st)
    requires from.Some? ==>
      && from.value < |st.sessions| && Unsucceeded(st.sessions, from.value)
      && !st.sessions[from.value].Live() && st.sessions[from.value].user == user
    ensures var st' := MintRow(st, user, from);
      && (forall i :: 0 <= i < |st'.sessions| ==> RowOk(st', i))
      && OneSuccessor(st'.sessions)
      && (forall r :: RefreshOk(st, r) && !(r.phase.Claimed? && from == Some(r.token)) ==>
            RefreshOk(st', r))
      && (forall l :: LogoutOk(st, l) ==> LogoutOk(st', l))
  {
    var st' := MintRow(st, user, from);
    forall i | 0 <= i < |st'.sessions| ensures RowOk(st', i) {
      if i < |st.sessions| { assert RowOk(st, i); }
      else if from.Some? { assert RowOk(st, from.value); }
    }
    forall r | RefreshOk(st, r) && !(r.phase.Claimed? && from == Some(r.token))
      ensures RefreshOk(st', r)
    {
    }
  }

  /** Replacing one refresh's phase. */
  lemma PhaseKeepsInv(st: State, r: nat, phase: Phase)
    requires Inv(st) && r < |st.refreshes|
    requires RefreshOk(st, st.refreshes[r].(phase := phase))
    requires phase.Claimed? ==> forall q | 0 <= q < |st.refreshes| && q != r ::
      st.refreshes[q].phase.Claimed? ==> st.refreshes[q].token != st.refreshes[r].token
    ensures Inv(SetPhase(st, r, phase))
  {
    var st' := SetPhase(st, r, phase);
    forall i | 0 <= i < |st'.sessions| ensures RowOk(st', i) { assert RowOk(st, i); }
    forall q | 0 <= q < |st'.refreshes| ensures RefreshOk(st', st'.refreshes[q]) {
      assert RefreshOk(st, st.refreshes[q]);
      assert RefreshOk(st, st'.refreshes[q]);
    }
    forall j | 0 <= j < |st'.logouts| ensures LogoutOk(st', st'.logouts[j]) {
      assert LogoutOk(st, st.logouts[j]);
    }
  }

  lemma ClaimKeepsInv(st: State, r: nat)
    requires Inv(st) && At(st, r) && st.refreshes[r].phase == ToClaim
    ensures Inv(Apply(st, Claim(r)))
  {
    var token := st.refreshes[r].token;
    var s := st.sessions[token];
    if s.Live() {
      var st1 := st.(sessions := RevokeOne(st.sessions, token, st.clock));
      RevokesKeepRows(st, st1);
      forall q | 0 <= q < |st.refreshes| && st.refreshes[q].phase.Claimed?
        ensures st.refreshes[q].token != token
      {
        assert RefreshOk(st, st.refreshes[q]);
      }
      forall m | 0 <= m < |st1.sessions| ensures st1.sessions[m].rotatedFrom != Some(token) {
        assert RowOk(st, m);
      }
      PhaseKeepsInv(st1, r, Claimed);
    } else {
      PhaseKeepsInv(st, r, ToLookup(None));
    }
  }

  lemma MintKeepsInv(st: State, r: nat)
    requires Inv(st) && At(st, r) && st.refreshes[r].phase == Claimed
    ensures Inv(Apply(st, Mint(r)))
  {
    var token := st.refreshes[r].token;
    assert RefreshOk(st, st.refreshes[r]);
    MintKeepsRows(st, st.sessions[token].user, Some(token));
    var st1 := MintRow(st, st.sessions[token].user, Some(token));
    var st' := SetPhase(st1, r, ToReread(|st.sessions|));
    assert st' == Apply(st, Mint(r));
    forall i | 0 <= i < |st'.sessions| ensures RowOk(st', i) { assert RowOk(st1, i); }
    forall q | 0 <= q < |st'.refreshes| ensures RefreshOk(st', st'.refreshes[q]) {
      if q != r { assert RefreshOk(st, st.refreshes[q]); assert RefreshOk(st1, st.refreshes[q]); }
    }
    forall j | 0 <= j < |st'.logouts| ensures LogoutOk(st', st'.logouts[j]) {
      assert LogoutOk(st1, st.logouts[j]);
    }
  }

  lemma RevokeKeepsInv(st: State, ids: set<SessionId>)
    requires Inv(st)
    ensures Inv(Apply(st, Revoke(ids)))
  {
    var st' := Apply(st, Revoke(ids));
    RevokesKeepRows(st, st');
    forall r | 0 <= r < |st'.refreshes| ensures RefreshOk(st', st'.refreshes[r]) {
      assert RefreshOk(st, st.refreshes[r]);
    }
    forall j | 0 <= j < |st'.logouts| ensures LogoutOk(st', st'.logouts[j]) {
      assert LogoutOk(st, st.logouts[j]);
    }
  }

  lemma RetractKeepsInv(st: State, r: nat)
    requires Inv(st) && At(st, r) && st.refreshes[r].phase.ToRetract?
    ensures Inv(Apply(st, Retract(r)))
  {
    var st1 := st.(sessions := RevokeOne(st.sessions, st.refreshes[r].phase.minted, st.clock));
    RevokesKeepRows(st, st1);
    PhaseKeepsInv(st1, r, Done(None));
  }

  lemma StartLogoutKeepsInv(st: State, users: set<UserId>)
    requires Inv(st)
    ensures Inv(StartLogoutOf(st, users))
  {
    var st' := StartLogoutOf(st, users);
    forall i | 0 <= i < |st'.sessions| ensures RowOk(st', i) { assert RowOk(st, i); }
    forall r | 0 <= r < |st'.refreshes| ensures RefreshOk(st', st'.refreshes[r]) {
      assert RefreshOk(st, st.refreshes[r]);
    }
    forall j | 0 <= j < |st'.logouts| ensures LogoutOk(st', st'.logouts[j]) {
      if j < |st.logouts| { assert LogoutOk(st, st.logouts[j]); }
    }
  }

  lemma CommitStampKeepsInv(st: State, j: nat)
    requires Inv(st)
    ensures Inv(Apply(st, CommitStamp(j)))
  {
    var st' := Apply(st, CommitStamp(j));
    RevokesKeepRows(st, st');
    forall k | 0 <= k < |st'.logouts| ensures LogoutOk(st', st'.logouts[k]) {
      assert LogoutOk(st, st.logouts[k]);
    }
  }

  lemma SweepKeepsInv(st: State, j: nat)
    requires Inv(st)
    ensures Inv(Apply(st, Sweep(j)))
  {
    var st' := Apply(st, Sweep(j));
    forall k | 0 <= k < |st.logouts| ensures st.logouts[k].at <= st.clock {
      assert LogoutOk(st, st.logouts[k]);
    }
    RevokesKeepRows(st, st');
    forall k | 0 <= k < |st'.logouts| ensures LogoutOk(st', st'.logouts[k]) {
      assert LogoutOk(st, st.logouts[k]) && LogoutOk(st', st.logouts[k]);
    }
  }

  lemma PresentKeepsInv(st: State, token: SessionId)
    requires Inv(st)
    ensures Inv(Apply(st, Present(token)))
  {
    var st' := Apply(st, Present(token));
    RevokesKeepRows(st, st');
    forall r | 0 <= r < |st'.refreshes| ensures RefreshOk(st', st'.refreshes[r]) {
      if r < |st.refreshes| { assert RefreshOk(st, st.refreshes[r]); }
    }
    forall j | 0 <= j < |st'.logouts| ensures LogoutOk(st', st'.logouts[j]) {
      assert LogoutOk(st, st.logouts[j]);
    }
  }

  lemma QuietKeepsInv(st: State, a: Action)
    requires Inv(st) && (a.Tick? || a.Slide?)
    ensures Inv(Apply(st, a))
  {
    var st' := Apply(st, a);
    RevokesKeepRows(st, st');
    forall r | 0 <= r < |st'.refreshes| ensures RefreshOk(st', st'.refreshes[r]) {
      assert RefreshOk(st, st.refreshes[r]);
    }
    forall j | 0 <= j < |st'.logouts| ensures LogoutOk(st', st'.logouts[j]) {
      assert LogoutOk(st, st.logouts[j]);
    }
  }

  lemma LoginKeepsInv(st: State, user: UserId)
    requires Inv(st)
    ensures Inv(Apply(st, Login(user)))
  {
    MintKeepsRows(st, user, None);
  }

  /** The phases that only move the refresh itself. */
  lemma MoveKeepsInv(st: State, r: nat, a: Action)
    requires Inv(st) && At(st, r)
    requires a == GateFail(r) || a == Reread(r) || a == Lookup(r)
    ensures Inv(Apply(st, a))
  {
    var f := st.refreshes[r];
    assert RefreshOk(st, f);
    if f.phase.Claimed? && a.GateFail? {
      PhaseKeepsInv(st, r, Done(None));
    } else if f.phase.ToReread? && a.Reread? {
      var m := f.phase.minted;
      PhaseKeepsInv(st, r, if Outdated(st, st.sessions[f.token]) then ToRetract(m) else Done(Some(m)));
    } else if f.phase.ToLookup? && a.Lookup? {
      var found := LiveSuccessor(st.sessions, f.token, 0);
      PhaseKeepsInv(st, r, Done(found));
      if found.None? && IsReuse(st, f.phase.seenRevokedAt) {
        StartLogoutKeepsInv(SetPhase(st, r, Done(None)), {st.sessions[f.token].user});
      }
    }
  }

  /** Every step of every run keeps the invariant. */
  lemma StepKeepsInv(st: State, a: Action)
    requires Inv(st)
    ensures Inv(Apply(st, a))
  {
    match a
    case Tick(_) => QuietKeepsInv(st, a);
    case Slide(_) => QuietKeepsInv(st, a);
    case Revoke(ids) => RevokeKeepsInv(st, ids);
    case Login(u) => LoginKeepsInv(st, u);
    case Present(t) => PresentKeepsInv(st, t);
    case StartLogout(us) => StartLogoutKeepsInv(st, us);
    case CommitStamp(j) => CommitStampKeepsInv(st, j);
    case Sweep(j) => SweepKeepsInv(st, j);
    case Claim(r) => if At(st, r) && st.refreshes[r].phase == ToClaim { ClaimKeepsInv(st, r); }
    case Mint(r) => if At(st, r) && st.refreshes[r].phase == Claimed { MintKeepsInv(st, r); }
    case Retract(r) => if At(st, r) && st.refreshes[r].phase.ToRetract? { RetractKeepsInv(st, r); }
    case GateFail(r) => if At(st, r) { MoveKeepsInv(st, r, a); }
    case Reread(r) => if At(st, r) { MoveKeepsInv(st, r, a); }
    case Lookup(r) => if At(st, r) { MoveKeepsInv(st, r, a); }
  }

  lemma {:induction false} RunKeepsInv(acts: seq<Action>)
    ensures Inv(Exec(acts))
  {
    if acts != [] {
      RunKeepsInv(acts[..|acts| - 1]);
      StepKeepsInv(Exec(acts[..|acts| - 1]), acts[|acts| - 1]);
    }
  }
}
