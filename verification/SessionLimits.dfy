/**
 Why each rule in the logout theorems is there: for each rule, a run that breaks it and ends with
 a session the theorem would rule out.  Each run is told by the states it goes through.
 */
module SessionLimits {
  import opened Prelude
  import opened SessionModel
  import opened SessionInvariants
  import opened SessionTheorems

  ghost predicate Passes(acts: seq<Action>, states: seq<State>) {
    && |states| == |acts| + 1 && states[0] == Init
    && forall i :: 0 <= i < |acts| ==> Apply(states[i], acts[i]) == states[i + 1]
  }

  lemma {:induction false} PassesAreExec(acts: seq<Action>, states: seq<State>, n: nat)
    requires Passes(acts, states) && n <= |acts|
    ensures Exec(acts[..n]) == states[n]
  {
    if n > 0 {
      PassesAreExec(acts, states, n - 1);
      assert acts[..n][..n - 1] == acts[..n - 1];
    }
  }

  lemma RunOfStates(acts: seq<Action>, states: seq<State>)
    requires Passes(acts, states)
    ensures Exec(acts) == states[|acts|]
    ensures (forall i :: 0 <= i < |acts| ==> OrderedStep(states[i], acts[i])) <==> Ordered(acts)
    ensures (forall i :: 0 <= i < |acts| ==> PromptStep(states[i], acts[i])) <==> Prompt(acts)
    ensures (forall i :: 0 <= i < |acts| ==> PatientStep(states[i], acts[i])) <==> Patient(acts)
  {
    forall i | 0 <= i <= |acts| ensures Exec(acts[..i]) == states[i] {
      PassesAreExec(acts, states, i);
    }
    assert acts[..|acts|] == acts;
  }

  /** Logout `l` has swept, yet session `s` of one of its users is live and settled, with an ancestor
      `a` from before the logout. */
  ghost predicate Escapes(st: State, s: SessionId, l: nat, a: SessionId) {
    && l < |st.logouts| && st.logouts[l].phase == Swept
    && a < |st.sessions| && s < |st.sessions| && IsAncestor(st.sessions, a, s)
    && st.sessions[s].Live() && !Pending(st, s) && st.sessions[s].user in st.logouts[l].users
    && st.sessions[a].createdAt < st.logouts[l].at
  }

  const U: UserId := "u"

  function Row(createdAt: Time, from: Option<SessionId>, revokedAt: Option<Time>): Session {
    Session(U, createdAt, createdAt + SESSION_TTL_MS, from, revokedAt)
  }

  // ---- A stale stamp ----------------------------------------------------------------------------

  const STALE: seq<Action> := [
    Tick(1), StartLogout({U}), Tick(1), Login(U), Present(0), Claim(0), Tick(1),
    StartLogout({U}), CommitStamp(1), Sweep(1), CommitStamp(0), Mint(0), Reread(0)]

  function StaleState(i: nat): State {
    var early, late := Logout({U}, 1, Clocked), Logout({U}, 3, Clocked);
    var stamped, swept := early.(phase := Stamped), late.(phase := Swept);
    var free, claimed := Row(2, None, None), Row(2, None, Some(2));
    var rows, going := [claimed, Row(3, Some(0), None)], Refresh(0, Claimed);
    match i
    case 0 => Init
    case 1 => State(1, [], map[], [], [])
    case 2 => State(1, [], map[], [], [early])
    case 3 => State(2, [], map[], [], [early])
    case 4 => State(2, [free], map[], [], [early])
    case 5 => State(2, [free], map[], [Refresh(0, ToClaim)], [early])
    case 6 => State(2, [claimed], map[], [going], [early])
    case 7 => State(3, [claimed], map[], [going], [early])
    case 8 => State(3, [claimed], map[], [going], [early, late])
    case 9 => State(3, [claimed], map[U := 3], [going], [early, late.(phase := Stamped)])
    case 10 => State(3, [claimed], map[U := 3], [going], [early, swept])
    case 11 => State(3, [claimed], map[U := 1], [going], [stamped, swept])
    case 12 => State(3, rows, map[U := 1], [Refresh(0, ToReread(1))], [stamped, swept])
    case _ => State(3, rows, map[U := 1], [Refresh(0, Done(Some(1)))], [stamped, swept])
  }

  lemma StaleStepsA(i: nat)
    requires i < 8
    ensures Apply(StaleState(i), STALE[i]) == StaleState(i + 1)
  {
  }

  lemma StaleStepsB(i: nat)
    requires 8 <= i < 13
    ensures Apply(StaleState(i), STALE[i]) == StaleState(i + 1)
  {
  }

  lemma StaleRules(i: nat)
    requires i < 13
    ensures OrderedStep(StaleState(i), STALE[i]) <==> i != 10
    ensures PatientStep(StaleState(i), STALE[i])
  {
  }

  lemma StaleRun() returns (states: seq<State>)
    ensures Passes(STALE, states) && states[13] == StaleState(13)
    ensures forall i :: 0 <= i < 13 ==> (OrderedStep(states[i], STALE[i]) <==> i != 10)
    ensures forall i :: 0 <= i < 13 ==> PatientStep(states[i], STALE[i])
  {
    states := seq(14, i requires 0 <= i => StaleState(i));
    forall i: nat | i < 13
      ensures Apply(states[i], STALE[i]) == states[i + 1]
      ensures OrderedStep(states[i], STALE[i]) <==> i != 10
      ensures PatientStep(states[i], STALE[i])
    {
      if i < 8 { StaleStepsA(i); } else { StaleStepsB(i); }
      StaleRules(i);
    }
  }

  /** Two overlapping logouts: the one that read the clock first commits its stamp last, and a
      refresh in flight passes its re-read against the older stamp. */
  lemma StaleStampLosesLogout()
    ensures Patient(STALE) && !Ordered(STALE) && Escapes(Exec(STALE), 1, 1, 0)
  {
    var states := StaleRun();
    RunOfStates(STALE, states);
    assert !OrderedStep(states[10], STALE[10]);
    StaleEnd(states[13]);
  }

  lemma StaleEnd(st: State)
    requires st == StaleState(13)
    ensures Escapes(st, 1, 1, 0)
  {
  }

  // ---- A session minted between the clock reading and the stamp ----------------------------------

  const WINDOW: seq<Action> := [
    Login(U), Tick(1), StartLogout({U}), Present(0), Claim(0), Mint(0), Reread(0),
    Present(1), Claim(1), CommitStamp(0), Sweep(0), Mint(1), Reread(1)]

  function WindowState(i: nat): State {
    var l := Logout({U}, 1, Clocked);
    var stamped, swept := l.(phase := Stamped), l.(phase := Swept);
    var row0, old0 := Row(0, None, None), Row(0, None, Some(1));
    var row1, old1, row2 := Row(1, Some(0), None), Row(1, Some(0), Some(1)), Row(1, Some(1), None);
    var first, second := Refresh(0, Done(Some(1))), Refresh(1, Claimed);
    match i
    case 0 => Init
    case 1 => State(0, [row0], map[], [], [])
    case 2 => State(1, [row0], map[], [], [])
    case 3 => State(1, [row0], map[], [], [l])
    case 4 => State(1, [row0], map[], [Refresh(0, ToClaim)], [l])
    case 5 => State(1, [old0], map[], [Refresh(0, Claimed)], [l])
    case 6 => State(1, [old0, row1], map[], [Refresh(0, ToReread(1))], [l])
    case 7 => State(1, [old0, row1], map[], [first], [l])
    case 8 => State(1, [old0, row1], map[], [first, Refresh(1, ToClaim)], [l])
    case 9 => State(1, [old0, old1], map[], [first, second], [l])
    case 10 => State(1, [old0, old1], map[U := 1], [first, second], [stamped])
    case 11 => State(1, [old0, old1], map[U := 1], [first, second], [swept])
    case 12 => State(1, [old0, old1, row2], map[U := 1], [first, Refresh(1, ToReread(2))], [swept])
    case _ => State(1, [old0, old1, row2], map[U := 1], [first, Refresh(1, Done(Some(2)))], [swept])
  }

  lemma WindowStepsA(i: nat)
    requires i < 7
    ensures Apply(WindowState(i), WINDOW[i]) == WindowState(i + 1)
  {
  }

  lemma WindowStepsB(i: nat)
    requires 7 <= i < 13
    ensures Apply(WindowState(i), WINDOW[i]) == WindowState(i + 1)
  {
  }

  lemma WindowRules(i: nat)
    requires i < 13
    ensures PromptStep(WindowState(i), WINDOW[i]) <==> i != 9
    ensures OrderedStep(WindowState(i), WINDOW[i]) && PatientStep(WindowState(i), WINDOW[i])
  {
    assert WindowState(9).sessions[1].createdAt == 1;
  }

  lemma WindowRun() returns (states: seq<State>)
    ensures Passes(WINDOW, states) && states[13] == WindowState(13)
    ensures forall i :: 0 <= i < 13 ==> (PromptStep(states[i], WINDOW[i]) <==> i != 9)
    ensures forall i :: 0 <= i < 13 ==> OrderedStep(states[i], WINDOW[i]) && PatientStep(states[i], WINDOW[i])
  {
    states := seq(14, i requires 0 <= i => WindowState(i));
    forall i: nat | i < 13
      ensures Apply(states[i], WINDOW[i]) == states[i + 1]
      ensures PromptStep(states[i], WINDOW[i]) <==> i != 9
      ensures OrderedStep(states[i], WINDOW[i]) && PatientStep(states[i], WINDOW[i])
    {
      if i < 7 { WindowStepsA(i); } else { WindowStepsB(i); }
      WindowRules(i);
    }
  }

  /** A session minted between a logout's clock reading and its stamp counts as newer than the
      logout; its own successor then survives with an ancestor from before the logout. */
  lemma EarlyMintHidesOldAncestor()
    ensures Ordered(WINDOW) && Patient(WINDOW) && !Prompt(WINDOW) && Escapes(Exec(WINDOW), 2, 0, 0)
  {
    var states := WindowRun();
    RunOfStates(WINDOW, states);
    assert !PromptStep(states[9], WINDOW[9]);
    WindowEnd(states[13]);
  }

  lemma WindowEnd(st: State)
    requires st == WindowState(13)
    ensures Escapes(st, 2, 0, 0)
  {
    assert IsAncestor(st.sessions, 0, 1);
  }

  // ---- A successor handed back before its re-read -------------------------------------------------

  const HANDBACK: seq<Action> := [
    Login(U), Present(0), Present(0), Claim(0), Claim(1), Tick(1), StartLogout({U}),
    CommitStamp(0), Sweep(0), Mint(0), Lookup(1), Present(1), Claim(2), Mint(2), Reread(2)]

  function HandBackState(i: nat): State {
    var l := Logout({U}, 1, Clocked);
    var stamped, swept := l.(phase := Stamped), l.(phase := Swept);
    var row0, old0 := Row(0, None, None), Row(0, None, Some(0));
    var row1, old1, row2 := Row(1, Some(0), None), Row(1, Some(0), Some(1)), Row(1, Some(1), None);
    var tab, lost := Refresh(0, ToClaim), Refresh(0, ToLookup(None));
    var won, minted := Refresh(0, Claimed), Refresh(0, ToReread(1));
    var handed := Refresh(0, Done(Some(1)));
    match i
    case 0 => Init
    case 1 => State(0, [row0], map[], [], [])
    case 2 => State(0, [row0], map[], [tab], [])
    case 3 => State(0, [row0], map[], [tab, tab], [])
    case 4 => State(0, [old0], map[], [won, tab], [])
    case 5 => State(0, [old0], map[], [won, lost], [])
    case 6 => State(1, [old0], map[], [won, lost], [])
    case 7 => State(1, [old0], map[], [won, lost], [l])
    case 8 => State(1, [old0], map[U := 1], [won, lost], [stamped])
    case 9 => State(1, [old0], map[U := 1], [won, lost], [swept])
    case 10 => State(1, [old0, row1], map[U := 1], [minted, lost], [swept])
    case 11 => State(1, [old0, row1], map[U := 1], [minted, handed], [swept])
    case 12 => State(1, [old0, row1], map[U := 1], [minted, handed, Refresh(1, ToClaim)], [swept])
    case 13 => State(1, [old0, old1], map[U := 1], [minted, handed, Refresh(1, Claimed)], [swept])
    case 14 =>
      State(1, [old0, old1, row2], map[U := 1], [minted, handed, Refresh(1, ToReread(2))], [swept])
    case _ =>
      State(1, [old0, old1, row2], map[U := 1], [minted, handed, Refresh(1, Done(Some(2)))], [swept])
  }

  lemma HandBackStepsA(i: nat)
    requires i < 8
    ensures Apply(HandBackState(i), HANDBACK[i]) == HandBackState(i + 1)
  {
  }

  lemma HandBackStepsB(i: nat)
    requires 8 <= i < 15
    ensures Apply(HandBackState(i), HANDBACK[i]) == HandBackState(i + 1)
  {
    if i == 10 {
      assert LiveSuccessor(HandBackState(10).sessions, 0, 1) == Some(1);
    }
  }

  lemma HandBackRules(i: nat)
    requires i < 15
    ensures PatientStep(HandBackState(i), HANDBACK[i]) <==> i != 11
    ensures OrderedStep(HandBackState(i), HANDBACK[i]) && PromptStep(HandBackState(i), HANDBACK[i])
  {
    if i == 11 { assert PendingAt(HandBackState(11), 0, 1); }
  }

  lemma HandBackRun() returns (states: seq<State>)
    ensures Passes(HANDBACK, states) && states[15] == HandBackState(15)
    ensures forall i :: 0 <= i < 15 ==> (PatientStep(states[i], HANDBACK[i]) <==> i != 11)
    ensures forall i :: 0 <= i < 15 ==> OrderedStep(states[i], HANDBACK[i]) && PromptStep(states[i], HANDBACK[i])
  {
    states := seq(16, i requires 0 <= i => HandBackState(i));
    forall i: nat | i < 15
      ensures Apply(states[i], HANDBACK[i]) == states[i + 1]
      ensures PatientStep(states[i], HANDBACK[i]) <==> i != 11
      ensures OrderedStep(states[i], HANDBACK[i]) && PromptStep(states[i], HANDBACK[i])
    {
      if i < 8 { HandBackStepsA(i); } else { HandBackStepsB(i); }
      HandBackRules(i);
    }
  }

  /** The hand-back path gives a second tab the successor before its re-read; rotated at once, it
      leaves a live session whose lineage the late re-read no longer reaches. */
  lemma EarlyHandBackOutlivesLogout()
    ensures Ordered(HANDBACK) && Prompt(HANDBACK) && !Patient(HANDBACK) && Escapes(Exec(HANDBACK), 2, 0, 0)
  {
    var states := HandBackRun();
    RunOfStates(HANDBACK, states);
    assert !PatientStep(states[11], HANDBACK[11]);
    HandBackEnd(states[15]);
  }

  lemma HandBackEnd(st: State)
    requires st == HandBackState(15)
    ensures Escapes(st, 2, 0, 0)
  {
    assert IsAncestor(st.sessions, 0, 1);
  }

  // ---- A session rotated twice while it is being exited --------------------------------------------

  const EXIT: seq<Action> := [
    Login(U), Present(0), Claim(0), Mint(0), Reread(0), Present(1), Claim(1), Mint(1), Reread(1), Login(U),
    Revoke({0, 1})]

  function ExitState(i: nat): State {
    var row0, old0 := Row(0, None, None), Row(0, None, Some(0));
    var row1, old1, row2 := Row(0, Some(0), None), Row(0, Some(0), Some(0)), Row(0, Some(1), None);
    var first := Refresh(0, Done(Some(1)));
    var rows, done := [old0, old1, row2], [first, Refresh(1, Done(Some(2)))];
    match i
    case 0 => Init
    case 1 => State(0, [row0], map[], [], [])
    case 2 => State(0, [row0], map[], [Refresh(0, ToClaim)], [])
    case 3 => State(0, [old0], map[], [Refresh(0, Claimed)], [])
    case 4 => State(0, [old0, row1], map[], [Refresh(0, ToReread(1))], [])
    case 5 => State(0, [old0, row1], map[], [first], [])
    case 6 => State(0, [old0, row1], map[], [first, Refresh(1, ToClaim)], [])
    case 7 => State(0, [old0, old1], map[], [first, Refresh(1, Claimed)], [])
    case 8 => State(0, rows, map[], [first, Refresh(1, ToReread(2))], [])
    case 9 => State(0, rows, map[], done, [])
    case _ => State(0, rows + [row0], map[], done, [])
  }

  lemma ExitStepsA(i: nat)
    requires i < 6
    ensures Apply(ExitState(i), EXIT[i]) == ExitState(i + 1)
  {
  }

  lemma ExitStepsB(i: nat)
    requires 6 <= i < 11
    ensures Apply(ExitState(i), EXIT[i]) == ExitState(i + 1)
  {
  }

  lemma ExitRun(acts: seq<Action>, n: nat)
    requires acts == EXIT && n <= 11
    ensures Exec(acts[..n]) == ExitState(n)
  {
    var states := seq(12, i requires 0 <= i => ExitState(i));
    forall i: nat | i < 11 ensures Apply(states[i], acts[i]) == states[i + 1] {
      if i < 6 { ExitStepsA(i); } else { ExitStepsB(i); }
    }
    PassesAreExec(acts, states, n);
  }

  lemma ExitEnd(st: State)
    requires st == ExitState(10)
    ensures ExitTargets(st.sessions, U, 0) == {0, 1}
  {
  }

  lemma StillThere(ss: seq<Session>)
    requires ss == ExitState(11).sessions
    ensures !LineageIsDead(ss, 0)
  {
    assert IsAncestor(ss, 0, 1);
    assert IsAncestor(ss, 0, 2) && ss[2].Live();
  }

  /** The guard sees the session live; while exit-tenant mints the home session, another device rotates the
      session twice; the revoke then finds the session and its successor already revoked, and the second
      rotation lives on. */
  lemma TwoRotationsOutliveExit(acts: seq<Action>)
    requires acts == EXIT
    ensures GuardPasses(Exec(acts[..1]), U, 0)
    ensures acts[10] == Revoke(ExitTargets(Exec(acts[..10]).sessions, U, 0))
    ensures !LineageIsDead(Exec(acts).sessions, 0)
  {
    ExitRun(acts, 1);
    ExitRun(acts, 10);
    ExitRun(acts, 11);
    assert acts[..11] == acts;
    ExitEnd(Exec(acts[..10]));
    StillThere(Exec(acts).sessions);
  }
}
