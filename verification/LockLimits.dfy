/** Why a commit must still find the rows it read outside its locks: a run of writers, from empty tables,
    in which a link that was checked before its outlet joined another group is committed after the
    outlet's owner gave details there. */
module LockLimits {
  import opened Prelude
  import opened PartnerGroup
  import opened OwnerGroups
  import opened OwnerGroupLimits
  import opened IdentityLocks
  import opened LockProtocol
  import opened LockCommits

  // ---- A writer that nobody interrupts --------------------------------------------------------------------

  /** The state after some more actions. */
  ghost function Then(w: World, st: State, acts: seq<Action>): State
    decreases |acts|
  {
    if acts == [] then st else Then(w, Apply(w, st, acts[0]), acts[1..])
  }

  lemma {:induction false} ThenAppend(w: World, st: State, a: seq<Action>, b: seq<Action>)
    ensures Then(w, st, a + b) == Then(w, Then(w, st, a), b)
    decreases |a|
  {
    if a == [] {
      assert a + b == b;
    } else {
      ThenAppend(w, Apply(w, st, a[0]), a[1..], b);
      assert (a + b)[1..] == a[1..] + b;
    }
  }

  lemma {:induction false} ThenOne(w: World, st: State, a: Action)
    ensures Then(w, st, [a]) == Apply(w, st, a)
  {
    assert [a][1..] == [];
  }

  lemma {:induction false} ExecIsThen(w: World, db: Db, acts: seq<Action>)
    ensures Exec(w, db, acts) == Then(w, State(db, map[], []), acts)
  {
    if acts != [] {
      var before, last := acts[..|acts| - 1], acts[|acts| - 1];
      ExecIsThen(w, db, before);
      assert acts == before + [last];
      ThenAppend(w, State(db, map[], []), before, [last]);
      ThenOne(w, Exec(w, db, before), last);
    }
  }

  ghost predicate AllClean(w: World, db: Db, txn: Txn) {
    forall f: Field :: !FieldClashes(db, txn.our, txn.details, w.policy, txn.except, f)
  }

  function AtSearch(st: State, t: TxnId, n: nat): State
    requires t < |st.txns|
  {
    st.(txns := st.txns[t := st.txns[t].(searched := n)])
  }

  lemma {:induction false} OneSearch(w: World, st: State, t: TxnId, n: nat)
    requires CanSearch(w, st, t) && AllClean(w, st.db, st.txns[t]) && n == st.txns[t].searched + 1
    ensures Apply(w, st, Search(t)) == AtSearch(st, t, n)
  {
  }

  function Searches(t: TxnId): seq<Action> { [Search(t), Search(t)] + [Search(t), Search(t)] }

  lemma {:induction false} TwoSearches(w: World, st: State, t: TxnId, n: nat)
    requires CanSearch(w, st, t) && st.txns[t].searched == n <= 2 && AllClean(w, st.db, st.txns[t])
    ensures Then(w, st, [Search(t), Search(t)]) == AtSearch(st, t, n + 2)
  {
    OneSearch(w, st, t, n + 1);
    var mid := AtSearch(st, t, n + 1);
    OneSearch(w, mid, t, n + 2);
    ThenOne(w, mid, Search(t));
    assert AtSearch(mid, t, n + 2) == AtSearch(st, t, n + 2);
    assert [Search(t), Search(t)][1..] == [Search(t)];
  }

  /** All four fields are searched and found clean. */
  lemma {:induction false} AllSearched(w: World, st: State, t: TxnId)
    requires CanSearch(w, st, t) && st.txns[t].searched == 0 && AllClean(w, st.db, st.txns[t])
    ensures Then(w, st, Searches(t)) == AtSearch(st, t, 4)
  {
    var mid := AtSearch(st, t, 2);
    TwoSearches(w, st, t, 0);
    TwoSearches(w, mid, t, 2);
    assert AtSearch(mid, t, 4) == AtSearch(st, t, 4);
    ThenAppend(w, st, [Search(t), Search(t)], [Search(t), Search(t)]);
  }

  // ---- A transaction up to its commit -----------------------------------------------------------------------

  /** The operation may begin; it has at most one key and clean searches, and nobody holds a lock. */
  ghost predicate Ready(w: World, st: State, op: Op) {
    CanBegin(st.db, op) && st.held == map[] && |Opened(w, st.db, op).keys| <= 1 &&
    AllClean(w, st.db, Opened(w, st.db, op))
  }

  function Opens(op: Op, t: TxnId, keys: nat): seq<Action> {
    [Begin(op)] + if keys == 0 then [] else [Lock(t)]
  }

  /** The transaction is open, with all its locks and no search yet. */
  function Open(w: World, st: State, op: Op): State
    requires CanBegin(st.db, op)
  {
    var txn, t := Opened(w, st.db, op), |st.txns|;
    if txn.keys == [] then st.(txns := st.txns + [txn])
    else State(st.db, st.held[(w.hash)(txn.keys[0]) := t], st.txns + [txn.(locked := 1)])
  }

  lemma {:induction false} WriterOpens(w: World, st: State, op: Op)
    requires Ready(w, st, op)
    ensures Then(w, st, Opens(op, |st.txns|, |Opened(w, st.db, op).keys|)) == Open(w, st, op)
  {
    var txn, t := Opened(w, st.db, op), |st.txns|;
    var begun := st.(txns := st.txns + [txn]);
    ThenOne(w, st, Begin(op));
    assert Apply(w, st, Begin(op)) == begun;
    if txn.keys == [] {
      assert Opens(op, t, |txn.keys|) == [Begin(op)];
    } else {
      ThenAppend(w, st, [Begin(op)], [Lock(t)]);
      ThenOne(w, begun, Lock(t));
      assert begun.txns[t] == txn && (st.txns + [txn])[t := txn.(locked := 1)] == st.txns + [txn.(locked := 1)];
    }
  }

  /** The transaction is ready to commit. */
  function Done(w: World, st: State, op: Op): State
    requires CanBegin(st.db, op)
  {
    AtSearch(Open(w, st, op), |st.txns|, 4)
  }

  lemma {:induction false} WriterSearches(w: World, st: State, op: Op)
    requires Ready(w, st, op)
    ensures Then(w, st, Opens(op, |st.txns|, |Opened(w, st.db, op).keys|) + Searches(|st.txns|)) == Done(w, st, op)
    ensures CanCommit(w, Done(w, st, op), |st.txns|)
  {
    WriterOpens(w, st, op);
    ThenAppend(w, st, Opens(op, |st.txns|, |Opened(w, st.db, op).keys|), Searches(|st.txns|));
    AllSearched(w, Open(w, st, op), |st.txns|);
  }

  /** The whole of one writer. */
  function Whole(op: Op, t: TxnId, keys: nat): seq<Action> { Opens(op, t, keys) + Searches(t) + [Commit(t)] }

  ghost predicate Follows(st: State, st': State, db: Db) {
    st'.db == db && st'.held == map[] && |st'.txns| == |st.txns| + 1 && st'.txns[..|st.txns|] == st.txns
  }

  lemma {:induction false} DoneCommits(w: World, st: State, op: Op)
    requires Ready(w, st, op)
    ensures Follows(st, Apply(w, Done(w, st, op), Commit(|st.txns|)), Written(st.db, Opened(w, st.db, op)))
  {
    WriterSearches(w, st, op);
    var txn, t := Opened(w, st.db, op), |st.txns|;
    var done := Done(w, st, op);
    assert Written(st.db, done.txns[t]) == Written(st.db, txn);
    assert forall x | x in done.held :: done.held[x] == t;
  }

  /** When it runs alone, nothing is left of it but what it wrote. */
  lemma {:induction false} WriterAlone(w: World, st: State, op: Op, keys: nat)
    requires Ready(w, st, op) && keys == |Opened(w, st.db, op).keys|
    ensures Follows(st, Then(w, st, Whole(op, |st.txns|, keys)), Written(st.db, Opened(w, st.db, op)))
  {
    WriterSearches(w, st, op);
    DoneCommits(w, st, op);
    ThenAppend(w, st, Opens(op, |st.txns|, keys) + Searches(|st.txns|), [Commit(|st.txns|)]);
    ThenOne(w, Done(w, st, op), Commit(|st.txns|));
  }

  // ---- The run --------------------------------------------------------------------------------------------------

  const G_OP := CreateParent("g", NO_DETAILS, None)
  const LINK_OB := LinkOutlet("ob", "g", None)
  const KYC_OB := KycWrite("ob", "b", SHARED_PAN, None)
  const LATE := LinkOutlet("oa", "h", None)
  const LINK_OA := LinkOutlet("oa", "g", None)
  const KYC_OA := KycWrite("oa", "a", SHARED_PAN, None)

  /** Two parents, and one shop of "g" with an owner that has a PAN. */
  const SETUP: seq<Action> :=
    Whole(G_OP, 0, 0) + Whole(H_OP, 1, 0) + Whole(LINK_OB, 2, 0) + Whole(KYC_OB, 3, 1)

  /** The late link of outlet "oa" to "h" is opened and searched; meanwhile "oa" joins "g" and its new owner
      gives the PAN that the group shares. */
  const STALE_RUN: seq<Action> :=
    SETUP + (Opens(LATE, 4, 0) + Searches(4)) + Whole(LINK_OA, 5, 0) + Whole(KYC_OA, 6, 1)

  const TWO_BARE := Db(map["g" := P_BARE, "h" := P_BARE], map[])
  const B_SHOP := Partner(false, false, SHARED_PAN, None)

  function OneShop(owned: bool): Db {
    Db(if owned then TWO_BARE.partners["b" := B_SHOP] else TWO_BARE.partners,
       map["ob" := Outlet(if owned then Some("b") else None, Some("g"), false)])
  }

  function Joined(): Db { Linked(OneShop(true), "oa", "g") }

  lemma {:induction false} NoDetailsNoKeys(w: World)
    ensures LockOrder(w.client, NO_DETAILS, w.policy) == [] && Canonical(NO_DETAILS) == NO_DETAILS
  {
    FourFields(w.client, NO_DETAILS, w.policy, Bank, Gst, Pan, Upi);
  }

  lemma {:induction false} PanHasOneKey(w: World)
    ensures |LockOrder(w.client, SHARED_PAN, w.policy)| == 1 && Canonical(SHARED_PAN) == SHARED_PAN
  {
    ShortValues();
    FourFields(w.client, SHARED_PAN, w.policy, Bank, Gst, Pan, Upi);
  }

  /** A writer without details has nothing to lock and nothing to clash. */
  lemma {:induction false} BareIsReady(w: World, st: State, op: Op)
    requires CanBegin(st.db, op) && st.held == map[] && Opened(w, st.db, op).details == NO_DETAILS
    requires Opened(w, st.db, op).keys == LockOrder(w.client, NO_DETAILS, w.policy)
    ensures Ready(w, st, op) && Opened(w, st.db, op).keys == []
  {
    NoDetailsNoKeys(w);
  }

  lemma {:induction false} CreatesParents(w: World, st: State)
    requires st.held == map[]
    ensures st.db == EMPTY ==>
      Follows(st, Then(w, st, Whole(G_OP, |st.txns|, 0)), Db(map["g" := P_BARE], map[]))
    ensures st.db == Db(map["g" := P_BARE], map[]) ==>
      Follows(st, Then(w, st, Whole(H_OP, |st.txns|, 0)), TWO_BARE)
  {
    NoDetailsNoKeys(w);
    if st.db == EMPTY {
      BareIsReady(w, st, G_OP);
      WriterAlone(w, st, G_OP, 0);
    }
    if st.db == Db(map["g" := P_BARE], map[]) {
      BareIsReady(w, st, H_OP);
      WriterAlone(w, st, H_OP, 0);
      assert st.db.partners["h" := P_BARE] == TWO_BARE.partners;
    }
  }

  lemma {:induction false} LinksOb(w: World, st: State)
    requires st.held == map[] && st.db == TWO_BARE
    ensures Follows(st, Then(w, st, Whole(LINK_OB, |st.txns|, 0)), OneShop(false))
  {
    NoDetailsNoKeys(w);
    BareIsReady(w, st, LINK_OB);
    WriterAlone(w, st, LINK_OB, 0);
  }

  lemma {:induction false} KycOb(w: World, st: State)
    requires st.held == map[] && st.db == OneShop(false)
    ensures Follows(st, Then(w, st, Whole(KYC_OB, |st.txns|, 1)), OneShop(true))
  {
    PanHasOneKey(w);
    assert AllClean(w, st.db, Opened(w, st.db, KYC_OB));
    WriterAlone(w, st, KYC_OB, 1);
    assert Written(st.db, Opened(w, st.db, KYC_OB)) == OneShop(true);
  }

  lemma {:induction false} LinksOa(w: World, st: State)
    requires st.held == map[] && st.db == OneShop(true)
    ensures Follows(st, Then(w, st, Whole(LINK_OA, |st.txns|, 0)), Joined())
  {
    NoDetailsNoKeys(w);
    BareIsReady(w, st, LINK_OA);
    WriterAlone(w, st, LINK_OA, 0);
  }

  lemma {:induction false} KycOaIsClean(w: World)
    ensures AllClean(w, Joined(), Opened(w, Joined(), KYC_OA))
  {
    PanHasOneKey(w);
    var db := Joined();
    assert Places(db, "ob", "b", "g") && InGroup(db, "b", "g");
  }

  lemma {:induction false} KycOa(w: World, st: State)
    requires st.held == map[] && st.db == Joined()
    ensures Follows(st, Then(w, st, Whole(KYC_OA, |st.txns|, 1)), TwoParents(false))
  {
    PanHasOneKey(w);
    KycOaIsClean(w);
    WriterAlone(w, st, KYC_OA, 1);
    assert Written(st.db, Opened(w, st.db, KYC_OA)) == TwoParents(false);
  }

  /** The late link stands open, searched and without a lock. */
  ghost predicate Late(st: State) {
    st.held == map[] && |st.txns| > 4 &&
    st.txns[4] == Txn(LATE, Some("h"), NO_DETAILS, None, [], 0, 4, false)
  }

  lemma {:induction false} OpensLate(w: World, st: State)
    requires st.held == map[] && st.db == OneShop(true) && |st.txns| == 4
    ensures var st' := Then(w, st, Opens(LATE, 4, 0) + Searches(4));
      Late(st') && st'.db == st.db && |st'.txns| == 5
  {
    NoDetailsNoKeys(w);
    BareIsReady(w, st, LATE);
    WriterSearches(w, st, LATE);
  }

  lemma {:induction false} Setup(w: World)
    ensures var st := Then(w, State(EMPTY, map[], []), SETUP);
      st.db == OneShop(true) && st.held == map[] && |st.txns| == 4
  {
    var st0 := State(EMPTY, map[], []);
    var st1 := Then(w, st0, Whole(G_OP, 0, 0));
    CreatesParents(w, st0);
    var st2 := Then(w, st1, Whole(H_OP, 1, 0));
    CreatesParents(w, st1);
    var st3 := Then(w, st2, Whole(LINK_OB, 2, 0));
    LinksOb(w, st2);
    KycOb(w, st3);
    ThenAppend(w, st0, Whole(G_OP, 0, 0), Whole(H_OP, 1, 0));
    ThenAppend(w, st0, Whole(G_OP, 0, 0) + Whole(H_OP, 1, 0), Whole(LINK_OB, 2, 0));
    ThenAppend(w, st0, Whole(G_OP, 0, 0) + Whole(H_OP, 1, 0) + Whole(LINK_OB, 2, 0), Whole(KYC_OB, 3, 1));
  }

  lemma {:induction false} StaleRun(w: World)
    ensures var st := Then(w, State(EMPTY, map[], []), STALE_RUN); Late(st) && st.db == TwoParents(false)
  {
    var st0 := State(EMPTY, map[], []);
    var open := Opens(LATE, 4, 0) + Searches(4);
    Setup(w);
    var st4 := Then(w, st0, SETUP);
    OpensLate(w, st4);
    var st5 := Then(w, st4, open);
    LinksOa(w, st5);
    var st6 := Then(w, st5, Whole(LINK_OA, 5, 0));
    assert st6.txns[4] == st6.txns[..5][4];
    KycOa(w, st6);
    var st7 := Then(w, st6, Whole(KYC_OA, 6, 1));
    assert st7.txns[4] == st7.txns[..6][4];
    ThenAppend(w, st0, SETUP, open);
    ThenAppend(w, st0, SETUP + open, Whole(LINK_OA, 5, 0));
    ThenAppend(w, st0, SETUP + open + Whole(LINK_OA, 5, 0), Whole(KYC_OA, 6, 1));
  }

  lemma {:induction false} LateCommits(w: World, st: State)
    requires Late(st) && st.db == TwoParents(false)
    ensures CanCommit(w, st, 4) && !RowsKept(st.db, st.txns[4])
    ensures Apply(w, st, Commit(4)).db == Linked(TwoParents(false), "oa", "h")
  {
  }

  /** The run keeps uniqueness up to here; then the late link is committed after all, and takes the outlet -
      and its owner's shared PAN - out of the group. */
  lemma {:induction false} StaleLinkBreaksUniqueness(w: World)
    ensures var st := Exec(w, EMPTY, STALE_RUN);
      && WellFormed(st.db) && UniqueOutsideGroups(w.policy, st.db)
      && CanCommit(w, st, 4) && !RowsKept(st.db, st.txns[4]) && !CommitFits(w.policy, st.db, st.txns[4])
    ensures !UniqueOutsideGroups(w.policy, Exec(w, EMPTY, STALE_RUN + [Commit(4)]).db)
  {
    var acts :| acts == STALE_RUN;
    ExecIsThen(w, EMPTY, acts);
    StaleRun(w);
    var st := Exec(w, EMPTY, acts);
    LateCommits(w, st);
    TwoParentsAreFine(w.policy, false);
    TwoParentsApart(w.policy, false);
    assert (acts + [Commit(4)])[..|acts|] == acts;
    assert Exec(w, EMPTY, acts + [Commit(4)]) == Apply(w, st, Commit(4));
    CommitKeepsUniqueIff(w, st.db, st.txns[4]);
  }
}
