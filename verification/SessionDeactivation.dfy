/**
 The stamper that runs inside one transaction, as deactivating an outlet does: the users' stamp and the
 sweep of their rows are two statements, but both take effect only when the transaction commits.  The
 sweep revokes the rows it found; rows it found are locked until the commit.
 */
module SessionDeactivation {
  import opened Prelude
  import opened SessionModel
  import opened SessionInvariants
  import opened SessionTheorems
  import opened SessionLimits

  /** Where the transaction stands: `rows` are the live rows of its users that its sweep found, and `count`
      the number of rows there were. */
  datatype Tx =
    | Idle
    | Holding(users: set<UserId>, at: Time, rows: set<SessionId>, count: nat)
    | Committed(users: set<UserId>, at: Time, count: nat)

  datatype TxState = TxState(db: State, tx: Tx)

  datatype TxAction =
    | Other(a: Action)
    | StampAndSweep(users: set<UserId>, at: Time)    // both statements, not yet visible to anyone
    | Commit

  function Found(ss: seq<Session>, users: set<UserId>): set<SessionId> {
    set i | 0 <= i < |ss| && ss[i].Live() && ss[i].user in users
  }

  /** The rows and the stamps that a step of another request writes. */
  predicate WritesRow(st: State, a: Action, i: SessionId) {
    match a
    case Claim(r) => r < |st.refreshes| && st.refreshes[r].token == i
    case Retract(r) => r < |st.refreshes| && st.refreshes[r].phase == ToRetract(i)
    case Slide(k) => k == i
    case Revoke(ids) => i in ids
    case Sweep(j) => j < |st.logouts| && i < |st.sessions| && st.sessions[i].user in st.logouts[j].users
    case _ => false
  }

  predicate WritesStamp(st: State, a: Action, u: UserId) {
    a.CommitStamp? && a.logout < |st.logouts| && u in st.logouts[a.logout].users
  }

  /** A statement that would write a locked row waits: it has not happened. */
  ghost predicate Waits(s: TxState, a: Action) {
    s.tx.Holding? &&
    ((exists i :: i in s.tx.rows && WritesRow(s.db, a, i)) ||
     (exists u :: u in s.tx.users && WritesStamp(s.db, a, u)))
  }

  ghost function TxApply(s: TxState, t: TxAction): TxState {
    match t
    case Other(a) => if Waits(s, a) then s else s.(db := Apply(s.db, a))
    case StampAndSweep(users, at) =>
      if s.tx.Idle? && at <= s.db.clock
      then s.(tx := Holding(users, at, Found(s.db.sessions, users), |s.db.sessions|)) else s
    case Commit =>
      if s.tx.Holding? then
        TxState(s.db.(sessions := RevokeIds(s.db.sessions, s.tx.rows, s.tx.at),
                      stamps := s.db.stamps + (map u | u in s.tx.users :: s.tx.at)),
                Committed(s.tx.users, s.tx.at, s.tx.count))
      else s
  }

  ghost function TxExec(acts: seq<TxAction>): TxState {
    if acts == [] then TxState(Init, Idle) else TxApply(TxExec(acts[..|acts| - 1]), acts[|acts| - 1])
  }

  // ---- Who survives -----------------------------------------------------------------------------------------

  /** While the transaction is open, the live rows of its users are those its sweep found and those minted
      since. */
  ghost predicate SweepHolds(s: TxState) {
    s.tx.Holding? ==>
      && s.tx.count <= |s.db.sessions|
      && (forall i | i in s.tx.rows :: i < s.tx.count && s.db.sessions[i].user in s.tx.users)
      && forall i: SessionId | i < s.tx.count && s.db.sessions[i].user in s.tx.users && s.db.sessions[i].Live() ::
           i in s.tx.rows
  }

  lemma StepKeepsSweep(s: TxState, t: TxAction)
    requires SweepHolds(s)
    ensures SweepHolds(TxApply(s, t))
  {
    if t.Other? && s.tx.Holding? && !Waits(s, t.a) {
      forall i: SessionId | i < |s.db.sessions| ensures RowKept(s.db, Apply(s.db, t.a), i) {
        StepKeepsRow(s.db, t.a, i);
      }
      if |s.db.sessions| > 0 { assert RowKept(s.db, Apply(s.db, t.a), |s.db.sessions| - 1); }
    }
  }

  lemma {:induction false} RunKeepsSweep(acts: seq<TxAction>)
    ensures SweepHolds(TxExec(acts))
  {
    if acts != [] {
      RunKeepsSweep(acts[..|acts| - 1]);
      StepKeepsSweep(TxExec(acts[..|acts| - 1]), acts[|acts| - 1]);
    }
  }

  /** In every run, the sessions of the users that are live right after the commit are exactly those that
      were live right before it and were minted after the sweep had looked. */
  lemma SurvivorsAreMintedAfterTheSweep(acts: seq<TxAction>, m: SessionId)
    requires var s := TxExec(acts); s.tx.Holding? && m < |s.db.sessions| && s.db.sessions[m].user in s.tx.users
    ensures var s := TxExec(acts);
      TxExec(acts + [Commit]).db.sessions[m].Live() <==> s.db.sessions[m].Live() && m >= s.tx.count
  {
    RunKeepsSweep(acts);
    assert (acts + [Commit])[..|acts|] == acts;
  }

  /** The rows of everybody else come through the commit as they were. */
  lemma CommitSparesOthers(acts: seq<TxAction>, m: SessionId)
    requires var s := TxExec(acts); s.tx.Holding? && m < |s.db.sessions| && s.db.sessions[m].user !in s.tx.users
    ensures m < |TxExec(acts + [Commit]).db.sessions|
    ensures TxExec(acts + [Commit]).db.sessions[m] == TxExec(acts).db.sessions[m]
  {
    RunKeepsSweep(acts);
    assert (acts + [Commit])[..|acts|] == acts;
  }

  /** What the open transaction has locked - the rows its sweep found, the stamps of its users - stays as it is
      while others run. */
  lemma LockedStays(s: TxState, a: Action)
    requires s.tx.Holding?
    ensures var db' := TxApply(s, Other(a)).db;
      && (forall i: SessionId | i in s.tx.rows && i < |s.db.sessions| ::
            i < |db'.sessions| && db'.sessions[i] == s.db.sessions[i])
      && (forall u | u in s.tx.users ::
            (u in db'.stamps <==> u in s.db.stamps) && (u in s.db.stamps ==> db'.stamps[u] == s.db.stamps[u]))
  {
    if !Waits(s, a) {
      forall i: SessionId | i in s.tx.rows && i < |s.db.sessions|
        ensures i < |Apply(s.db, a).sessions| && Apply(s.db, a).sessions[i] == s.db.sessions[i]
      {
        assert !WritesRow(s.db, a, i);
        UnwrittenStays(s.db, a, i);
      }
      forall u | u in s.tx.users ensures !WritesStamp(s.db, a, u) {}
      StampsStep(s.db, a);
    }
  }

  /** And only a statement that names such a row, or such a user's stamp, has to wait. */
  lemma WaitsIff(s: TxState, a: Action)
    requires s.tx.Holding?
    ensures Waits(s, a) <==>
      match a
      case Claim(r) => r < |s.db.refreshes| && s.db.refreshes[r].token in s.tx.rows
      case Retract(r) => exists m | m in s.tx.rows :: r < |s.db.refreshes| && s.db.refreshes[r].phase == ToRetract(m)
      case Slide(k) => k in s.tx.rows
      case Revoke(ids) => exists i :: i in ids && i in s.tx.rows
      case Sweep(j) =>
        exists i: SessionId | i in s.tx.rows && i < |s.db.sessions| ::
          j < |s.db.logouts| && s.db.sessions[i].user in s.db.logouts[j].users
      case CommitStamp(j) => exists u | u in s.tx.users :: j < |s.db.logouts| && u in s.db.logouts[j].users
      case _ => false
  {
    match a
    case Claim(r) =>
      if r < |s.db.refreshes| && s.db.refreshes[r].token in s.tx.rows {
        assert WritesRow(s.db, a, s.db.refreshes[r].token);
      }
    case Retract(r) =>
      if m :| m in s.tx.rows && r < |s.db.refreshes| && s.db.refreshes[r].phase == ToRetract(m) {
        assert WritesRow(s.db, a, m);
      }
    case Slide(k) => if k in s.tx.rows { assert WritesRow(s.db, a, k); }
    case Revoke(ids) => if i :| i in ids && i in s.tx.rows { assert WritesRow(s.db, a, i); }
    case Sweep(j) =>
      if j < |s.db.logouts| {
        forall i: SessionId | i in s.tx.rows && i < |s.db.sessions| && s.db.sessions[i].user in s.db.logouts[j].users
          ensures WritesRow(s.db, a, i)
        {
        }
      }
    case CommitStamp(j) =>
      if u :| u in s.tx.users && j < |s.db.logouts| && u in s.db.logouts[j].users {
        assert WritesStamp(s.db, a, u);
      }
    case _ =>
  }

  lemma UnwrittenStays(st: State, a: Action, i: SessionId)
    requires i < |st.sessions| && !WritesRow(st, a, i)
    ensures i < |Apply(st, a).sessions| && Apply(st, a).sessions[i] == st.sessions[i]
  {
  }

  /** The commit stamps the users, and changes nothing about the refreshes and about whose rows there are. */
  lemma CommitStamps(s: TxState, after: State)
    requires s.tx.Holding? && after == TxApply(s, Commit).db
    ensures after.refreshes == s.db.refreshes && |after.sessions| == |s.db.sessions|
    ensures forall u | u in s.tx.users :: u in after.stamps && after.stamps[u] == s.tx.at
    ensures forall i: SessionId | i < |s.db.sessions| ::
      after.sessions[i].user == s.db.sessions[i].user && after.sessions[i].createdAt == s.db.sessions[i].createdAt
  {
  }

  lemma OutdatedRereadRetracts(st: State, r: nat, m: SessionId)
    requires At(st, r) && st.refreshes[r].phase == ToReread(m)
    requires Outdated(st, st.sessions[st.refreshes[r].token])
    ensures r < |Apply(st, Reread(r)).refreshes| && Apply(st, Reread(r)).refreshes[r].phase == ToRetract(m)
  {
  }

  /** After the commit a refresh that has not re-read yet sees the stamp, and drops what it minted from an
      older session: only a re-read that came before the commit lets a successor through. */
  lemma LateRereadIsCaught(s: TxState, after: State, r: nat, m: SessionId)
    requires s.tx.Holding? && after == TxApply(s, Commit).db
    requires At(s.db, r) && s.db.refreshes[r].phase == ToReread(m)
    requires s.db.sessions[s.db.refreshes[r].token].user in s.tx.users
    requires s.db.sessions[s.db.refreshes[r].token].createdAt < s.tx.at
    ensures r < |Apply(after, Reread(r)).refreshes| && Apply(after, Reread(r)).refreshes[r].phase == ToRetract(m)
  {
    CommitStamps(s, after);
    OutdatedRereadRetracts(after, r, m);
  }

  // ---- One does -----------------------------------------------------------------------------------------------

  /** A refresh has claimed its row when the sweep looks, and mints and re-reads before the commit. */
  const SLIPS: seq<TxAction> := [
    Other(Login(U)), Other(Tick(1)), Other(Present(0)), Other(Claim(0)), StampAndSweep({U}, 1),
    Other(Mint(0)), Other(Reread(0)), Commit]

  ghost function SlipState(i: nat): TxState {
    var row0, claimed, row1 := Row(0, None, None), Row(0, None, Some(1)), Row(1, Some(0), None);
    var tx := Holding({U}, 1, {}, 1);
    match i
    case 0 => TxState(Init, Idle)
    case 1 => TxState(State(0, [row0], map[], [], []), Idle)
    case 2 => TxState(State(1, [row0], map[], [], []), Idle)
    case 3 => TxState(State(1, [row0], map[], [Refresh(0, ToClaim)], []), Idle)
    case 4 => TxState(State(1, [claimed], map[], [Refresh(0, Claimed)], []), Idle)
    case 5 => TxState(State(1, [claimed], map[], [Refresh(0, Claimed)], []), tx)
    case 6 => TxState(State(1, [claimed, row1], map[], [Refresh(0, ToReread(1))], []), tx)
    case 7 => TxState(State(1, [claimed, row1], map[], [Refresh(0, Done(Some(1)))], []), tx)
    case _ => TxState(State(1, [claimed, row1], map[U := 1], [Refresh(0, Done(Some(1)))], []), Committed({U}, 1, 1))
  }

  lemma SlipStep(i: nat)
    requires i < 8
    ensures TxApply(SlipState(i), SLIPS[i]) == SlipState(i + 1)
  {
    if i == 4 { assert Found(SlipState(4).db.sessions, {U}) == {}; }
    if i in {5, 6} { assert !Waits(SlipState(i), SLIPS[i].a); }
    if i == 7 {
      var ss := SlipState(7).db.sessions;
      assert RevokeIds(ss, {}, 1) == ss;
    }
  }

  lemma {:induction false} SlipRun(acts: seq<TxAction>, n: nat)
    requires acts == SLIPS && n <= 8
    ensures TxExec(acts[..n]) == SlipState(n)
  {
    if n > 0 {
      SlipRun(acts, n - 1);
      SlipStep(n - 1);
      assert acts[..n][..n - 1] == acts[..n - 1];
    }
  }

  /** It ends with a live, settled session of the deactivated user, rotated from one that is older than the
      stamp. */
  lemma SuccessorSlipsThrough(acts: seq<TxAction>)
    requires acts == SLIPS
    ensures var s := TxExec(acts);
      && s.tx == Committed({U}, 1, 1) && s.db.stamps == map[U := 1]
      && |s.db.sessions| == 2 && s.db.sessions[1].Live() && !Pending(s.db, 1)
      && s.db.sessions[1].rotatedFrom == Some(0) && s.db.sessions[0].createdAt < 1
  {
    SlipRun(acts, 8);
    assert acts[..8] == acts;
  }
}
