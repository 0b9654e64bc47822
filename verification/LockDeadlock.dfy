/**
 When writers that lock their keys in sorted order can block each other in a circle.  The keys are
 sorted, but what is locked is their hashes: with an injective hash there is never a circle, and with
 collisions there is one exactly when two pairs of keys cross.
 */
module LockDeadlock {
  import opened Prelude
  import opened PartnerGroup
  import opened OwnerGroups
  import opened IdentityLocks
  import opened LockProtocol

  predicate Blocked(w: World, st: State, t: TxnId, u: TxnId) {
    WantsLock(w, st, t) && Wanted(w, st, t) in st.held && st.held[Wanted(w, st, t)] == u && u != t
  }

  /** Each transaction of the set waits for one in the set, so none of them can ever go on. */
  ghost predicate CircularWait(w: World, st: State, c: set<TxnId>) {
    c != {} && forall t {:trigger BlockedIn(w, st, c, t)} | t in c :: BlockedIn(w, st, c, t)
  }

  ghost predicate BlockedIn(w: World, st: State, c: set<TxnId>, t: TxnId) {
    exists u :: u in c && Blocked(w, st, t, u)
  }

  // ---- Keys and their ranks ---------------------------------------------------------------------

  datatype Key = Key(field: Field, value: string)

  /** A key some writer can need: an enforced field and a canonical value. */
  predicate Usable(w: World, k: Key) {
    Enforced(k.field, w.policy) && Normalize(k.field, Some(k.value)) == Some(k.value)
  }

  function Hash(w: World, k: Key): int { (w.hash)(KeyText(w.client, k.field, k.value)) }

  /** One writer can need `a` then `b`, another `c` then `d`, and the hash folds the first key of each
      into the second of the other. */
  predicate Crossed(w: World, a: Key, b: Key, c: Key, d: Key) {
    && Usable(w, a) && Usable(w, b) && Usable(w, c) && Usable(w, d)
    && Rank(a.field) < Rank(b.field) && Rank(c.field) < Rank(d.field)
    && Hash(w, a) == Hash(w, d) && Hash(w, b) == Hash(w, c) && Hash(w, a) != Hash(w, b)
  }

  /** The fields behind a key list. */
  function FieldsFrom(d: Details, policy: Policy, order: seq<Field>): seq<Field> {
    if order == [] then []
    else
      var f := order[|order| - 1];
      FieldsFrom(d, policy, order[..|order| - 1]) +
      if Enforced(f, policy) && Normalize(f, d.Get(f)).Some? then [f] else []
  }

  lemma {:induction false} FieldsMatchKeys(client: ClientId, d: Details, policy: Policy,
                                           order: seq<Field>)
    ensures var ks, fs := KeysFrom(client, d, policy, order), FieldsFrom(d, policy, order);
      && |fs| == |ks|
      && forall i: nat | i < |fs| ::
           Enforced(fs[i], policy) && Normalize(fs[i], d.Get(fs[i])).Some? &&
           ks[i] == KeyText(client, fs[i], Normalize(fs[i], d.Get(fs[i])).value)
  {
    if order != [] { FieldsMatchKeys(client, d, policy, order[..|order| - 1]); }
  }

  /** Fields of ever higher rank, all below `n`. */
  ghost predicate Climbing(fs: seq<Field>, n: nat) {
    && (forall i: nat | i < |fs| :: Rank(fs[i]) < n)
    && forall i: nat, j: nat | i < j < |fs| :: Rank(fs[i]) < Rank(fs[j])
  }

  lemma OneMoreClimbs(fs: seq<Field>, n: nat, f: Field)
    requires Climbing(fs, n) && Rank(f) == n
    ensures Climbing(fs, n + 1) && Climbing(fs + [f], n + 1)
  {
    var more := fs + [f];
    forall i: nat, j: nat | i < j < |more| ensures Rank(more[i]) < Rank(more[j]) {
      assert j < |fs| ==> more[j] == fs[j];
      assert more[i] == fs[i];
    }
  }

  lemma {:induction false} RankedFieldsClimb(d: Details, policy: Policy, n: nat)
    requires n <= 4
    ensures Climbing(FieldsFrom(d, policy, RANKED[..n]), n)
  {
    if n > 0 {
      RankedFieldsClimb(d, policy, n - 1);
      assert RANKED[..n][..n - 1] == RANKED[..n - 1] && RANKED[..n][n - 1] == RANKED[n - 1];
      var f := RANKED[n - 1];
      assert Rank(f) == n - 1;
      OneMoreClimbs(FieldsFrom(d, policy, RANKED[..n - 1]), n - 1, f);
    }
  }

  predicate KeysRight(w: World, txn: Txn) { txn.keys == LockOrder(w.client, txn.details, w.policy) }

  /** The i-th key of a transaction. */
  function KeyAt(w: World, txn: Txn, i: nat): (k: Key)
    requires KeysRight(w, txn) && i < |txn.keys|
    ensures Usable(w, k) && Hash(w, k) == LockOf(w, txn, i)
  {
    FieldsMatchKeys(w.client, txn.details, w.policy, RANKED);
    var f := FieldsFrom(txn.details, w.policy, RANKED)[i];
    NormalizeTwice(f, txn.details.Get(f));
    Key(f, Normalize(f, txn.details.Get(f)).value)
  }

  lemma KeysClimb(w: World, txn: Txn, i: nat, j: nat)
    requires KeysRight(w, txn) && i < j < |txn.keys|
    ensures Rank(KeyAt(w, txn, i).field) < Rank(KeyAt(w, txn, j).field)
  {
    FieldsMatchKeys(w.client, txn.details, w.policy, RANKED);
    assert RANKED[..4] == RANKED;
    RankedFieldsClimb(txn.details, w.policy, 4);
  }

  // ---- No circle without a crossing -------------------------------------------------------------

  ghost predicate AllKeysRight(w: World, st: State) {
    forall t: TxnId | t < |st.txns| :: KeysRight(w, st.txns[t])
  }

  lemma {:induction false} RunKeepsKeys(w: World, db: Db, acts: seq<Action>)
    ensures AllKeysRight(w, Exec(w, db, acts))
  {
    if acts != [] {
      RunKeepsKeys(w, db, acts[..|acts| - 1]);
      StepKeepsKeys(w, Exec(w, db, acts[..|acts| - 1]), acts[|acts| - 1]);
    }
  }

  lemma StepKeepsKeys(w: World, st: State, a: Action)
    requires AllKeysRight(w, st)
    ensures AllKeysRight(w, Apply(w, st, a))
  {
  }

  /** Transaction `t` holds, with its key number `j`, the lock that `s` waits for. */
  predicate Obstructs(w: World, st: State, s: TxnId, t: TxnId, j: nat) {
    && Blocked(w, st, s, t)
    && t < |st.txns| && j < st.txns[t].locked && j < |st.txns[t].keys|
    && LockOf(w, st.txns[t], j) == Wanted(w, st, s)
  }

  lemma BlockedIsObstructed(w: World, st: State, s: TxnId, t: TxnId)
    requires LocksAgree(w, st) && Blocked(w, st, s, t)
    ensures exists j: nat :: Obstructs(w, st, s, t, j)
  {
    var x := Wanted(w, st, s);
    assert Took(w, st.txns[t], x);
    var j: nat :| j < st.txns[t].locked && j < |st.txns[t].keys| && LockOf(w, st.txns[t], j) == x;
    assert Obstructs(w, st, s, t, j);
  }

  function HeldRank(w: World, st: State, t: TxnId, j: nat): nat
    requires AllKeysRight(w, st) && t < |st.txns| && j < |st.txns[t].keys|
  {
    Rank(KeyAt(w, st.txns[t], j).field)
  }

  ghost predicate NothingCrosses(w: World) {
    forall a, b, c, d :: !Crossed(w, a, b, c, d)
  }

  /** Two waits further on, the obstructing key has a higher rank. */
  lemma RankClimbs(w: World, st: State, t0: TxnId, t1: TxnId, t2: TxnId, t3: TxnId, j1: nat, j3: nat)
    requires LocksAgree(w, st) && AllKeysRight(w, st) && NothingCrosses(w)
    requires Obstructs(w, st, t0, t1, j1) && Blocked(w, st, t1, t2) && Obstructs(w, st, t2, t3, j3)
    ensures HeldRank(w, st, t1, j1) < HeldRank(w, st, t3, j3)
  {
    BlockedIsObstructed(w, st, t1, t2);
    var j2: nat :| Obstructs(w, st, t1, t2, j2);
    var n1, n2 := st.txns[t1].locked, st.txns[t2].locked;
    KeysClimb(w, st.txns[t1], j1, n1);
    KeysClimb(w, st.txns[t2], j2, n2);
    assert Took(w, st.txns[t2], Wanted(w, st, t1));
    assert !Crossed(w, KeyAt(w, st.txns[t2], j2), KeyAt(w, st.txns[t2], n2),
                    KeyAt(w, st.txns[t3], j3), KeyAt(w, st.txns[t1], n1));
  }

  /** `t` keeps `s` waiting with a key of rank `n` or more. */
  ghost predicate Pressed(w: World, st: State, s: TxnId, t: TxnId, n: nat)
    requires AllKeysRight(w, st)
  {
    exists j: nat :: Obstructs(w, st, s, t, j) && HeldRank(w, st, t, j) >= n
  }

  lemma PressClimbs(w: World, st: State, t0: TxnId, t1: TxnId, t2: TxnId, t3: TxnId, n: nat)
    requires LocksAgree(w, st) && AllKeysRight(w, st) && NothingCrosses(w)
    requires Pressed(w, st, t0, t1, n) && Blocked(w, st, t1, t2) && Blocked(w, st, t2, t3)
    ensures Pressed(w, st, t2, t3, n + 1)
  {
    var j1: nat :| Obstructs(w, st, t0, t1, j1) && HeldRank(w, st, t1, j1) >= n;
    BlockedIsObstructed(w, st, t2, t3);
    var j3: nat :| Obstructs(w, st, t2, t3, j3);
    RankClimbs(w, st, t0, t1, t2, t3, j1, j3);
  }

  lemma PressedInside(w: World, st: State, c: set<TxnId>, s: TxnId, t: TxnId, n: nat)
    requires LocksAgree(w, st) && AllKeysRight(w, st) && NothingCrosses(w) && CircularWait(w, st, c)
    requires n > 0 && t in c && Pressed(w, st, s, t, n - 1)
    ensures exists u, v :: v in c && Pressed(w, st, u, v, n)
  {
    assert BlockedIn(w, st, c, t);
    var u :| u in c && Blocked(w, st, t, u);
    assert BlockedIn(w, st, c, u);
    var v :| v in c && Blocked(w, st, u, v);
    PressClimbs(w, st, s, t, u, v, n - 1);
  }

  lemma SomeonePressed(w: World, st: State, c: set<TxnId>)
    requires LocksAgree(w, st) && AllKeysRight(w, st) && CircularWait(w, st, c)
    ensures exists s, t :: t in c && Pressed(w, st, s, t, 0)
  {
    var s :| s in c;
    assert BlockedIn(w, st, c, s);
    var t :| t in c && Blocked(w, st, s, t);
    BlockedIsObstructed(w, st, s, t);
    assert Pressed(w, st, s, t, 0);
  }

  /** Walking round a circle, the rank grows without end. */
  lemma {:induction false} CircleClimbs(w: World, st: State, c: set<TxnId>, n: nat)
    requires LocksAgree(w, st) && AllKeysRight(w, st) && NothingCrosses(w) && CircularWait(w, st, c)
    ensures exists s, t :: t in c && Pressed(w, st, s, t, n)
  {
    if n == 0 {
      SomeonePressed(w, st, c);
    } else {
      CircleClimbs(w, st, c, n - 1);
      var s, t :| t in c && Pressed(w, st, s, t, n - 1);
      PressedInside(w, st, c, s, t, n);
    }
  }

  lemma NoCircleHere(w: World, st: State, c: set<TxnId>)
    requires LocksAgree(w, st) && AllKeysRight(w, st) && NothingCrosses(w)
    ensures !CircularWait(w, st, c)
  {
    if CircularWait(w, st, c) {
      CircleClimbs(w, st, c, 4);    // four fields have ranks 0 to 3
    }
  }

  lemma NoCircle(w: World, db: Db, acts: seq<Action>, c: set<TxnId>)
    requires NothingCrosses(w)
    ensures !CircularWait(w, Exec(w, db, acts), c)
  {
    RunKeepsLocks(w, db, acts);
    RunKeepsKeys(w, db, acts);
    NoCircleHere(w, Exec(w, db, acts), c);
  }

  // ---- A circle from a crossing -----------------------------------------------------------------

  function Only(f: Field, k: Key): Option<string> { if f == k.field then Some(k.value) else None }

  function Either(f: Field, a: Key, b: Key): Option<string> {
    if f == a.field then Some(a.value) else Only(f, b)
  }

  function Two(a: Key, b: Key): Details {
    Details(Either(Pan, a, b), Either(Gst, a, b), Either(Bank, a, b), Either(Upi, a, b))
  }

  lemma TwoKeys(w: World, a: Key, b: Key)
    requires Usable(w, a) && Usable(w, b) && Rank(a.field) < Rank(b.field)
    ensures Canonical(Two(a, b)) == Two(a, b)
    ensures LockOrder(w.client, Two(a, b), w.policy) ==
      [KeyText(w.client, a.field, a.value), KeyText(w.client, b.field, b.value)]
  {
    FourFields(w.client, Two(a, b), w.policy, Bank, Gst, Pan, Upi);
  }

  /** The first writer takes `a`, the second `c`; now each wants what the other has. */
  function CrossingRun(a: Key, b: Key, c: Key, d: Key): seq<Action> {
    [Begin(CreateParent("p", Two(a, b), None)), Begin(CreateParent("q", Two(c, d), None)), Lock(0), Lock(1)]
  }

  function Starter(w: World, id: PartnerId, a: Key, b: Key, locked: nat): Txn {
    NewTxn(w, CreateParent(id, Two(a, b), None), None, Two(a, b), None).(locked := locked)
  }

  lemma FourActions(w: World, db: Db, acts: seq<Action>)
    requires |acts| == 4
    ensures Exec(w, db, acts) ==
      Apply(w, Apply(w, Apply(w, Apply(w, State(db, map[], []), acts[0]), acts[1]), acts[2]), acts[3])
  {
    assert acts[..3][..2] == acts[..2] && acts[..2][..1] == acts[..1] && acts[..1][..0] == [];
    assert Exec(w, db, acts[..0]) == State(db, map[], []);
    assert Exec(w, db, acts[..1]) == Apply(w, Exec(w, db, acts[..0]), acts[0]);
    assert Exec(w, db, acts[..2]) == Apply(w, Exec(w, db, acts[..1]), acts[1]);
    assert Exec(w, db, acts[..3]) == Apply(w, Exec(w, db, acts[..2]), acts[2]);
  }

  lemma CrossingRunEnds(w: World, a: Key, b: Key, c: Key, d: Key, acts: seq<Action>)
    requires Crossed(w, a, b, c, d) && acts == CrossingRun(a, b, c, d)
    ensures Exec(w, EMPTY, acts) ==
      State(EMPTY, map[Hash(w, a) := 0, Hash(w, c) := 1],
            [Starter(w, "p", a, b, 1), Starter(w, "q", c, d, 1)])
  {
    TwoKeys(w, a, b);
    TwoKeys(w, c, d);
    FourActions(w, EMPTY, acts);
    var st1 := State(EMPTY, map[], [Starter(w, "p", a, b, 0)]);
    var st2 := State(EMPTY, map[], [Starter(w, "p", a, b, 0), Starter(w, "q", c, d, 0)]);
    var st3 := State(EMPTY, map[Hash(w, a) := 0], [Starter(w, "p", a, b, 1), Starter(w, "q", c, d, 0)]);
    assert Apply(w, State(EMPTY, map[], []), acts[0]) == st1;
    assert Apply(w, st1, acts[1]) == st2;
    assert Apply(w, st2, acts[2]) == st3;
  }

  lemma StarterWants(w: World, st: State, t: TxnId, id: PartnerId, a: Key, b: Key)
    requires Usable(w, a) && Usable(w, b) && Rank(a.field) < Rank(b.field)
    requires t < |st.txns| && st.txns[t] == Starter(w, id, a, b, 1)
    ensures WantsLock(w, st, t) && Wanted(w, st, t) == Hash(w, b)
  {
    TwoKeys(w, a, b);
  }

  lemma EachWantsTheOthers(w: World, st: State, a: Key, b: Key, c: Key, d: Key)
    requires Crossed(w, a, b, c, d)
    requires st == State(EMPTY, map[Hash(w, a) := 0, Hash(w, c) := 1],
                         [Starter(w, "p", a, b, 1), Starter(w, "q", c, d, 1)])
    ensures CircularWait(w, st, {0, 1})
  {
    StarterWants(w, st, 0, "p", a, b);
    StarterWants(w, st, 1, "q", c, d);
    assert Blocked(w, st, 0, 1) && Blocked(w, st, 1, 0);
    assert BlockedIn(w, st, {0, 1}, 0) && BlockedIn(w, st, {0, 1}, 1);
  }

  /** The run `acts`, from empty tables, ends with the transactions of `c` blocking each other. */
  ghost predicate EndsInCircle(w: World, acts: seq<Action>, c: set<TxnId>) {
    CircularWait(w, Exec(w, EMPTY, acts), c)
  }

  lemma CrossingMakesACircle(w: World, a: Key, b: Key, c: Key, d: Key)
    requires Crossed(w, a, b, c, d)
    ensures exists acts, circle :: EndsInCircle(w, acts, circle)
  {
    var acts :| acts == CrossingRun(a, b, c, d);
    CrossingRunEnds(w, a, b, c, d, acts);
    EachWantsTheOthers(w, Exec(w, EMPTY, acts), a, b, c, d);
    assert EndsInCircle(w, acts, {0, 1});
  }

  /** Writers can reach a circular wait if and only if some keys cross. */
  lemma CircleIffCrossed(w: World)
    ensures (exists acts, c :: EndsInCircle(w, acts, c)) <==> !NothingCrosses(w)
  {
    if NothingCrosses(w) {
      forall acts, c ensures !EndsInCircle(w, acts, c) {
        NoCircle(w, EMPTY, acts, c);
      }
    } else {
      var a, b, c, d :| Crossed(w, a, b, c, d);
      CrossingMakesACircle(w, a, b, c, d);
    }
  }

  /** A hash that keeps usable keys of different fields apart never lets writers block in a circle:
      collisions between values of one field do no harm. */
  lemma SameFieldCollisionsAreHarmless(w: World, db: Db, acts: seq<Action>, c: set<TxnId>)
    requires forall k, l | Usable(w, k) && Usable(w, l) && Hash(w, k) == Hash(w, l) :: k.field == l.field
    ensures !CircularWait(w, Exec(w, db, acts), c)
  {
    forall a, b, e, d ensures !Crossed(w, a, b, e, d) {
    }
    NoCircle(w, db, acts, c);
  }
}
