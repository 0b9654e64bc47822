/**
 The field name of each credited transaction, found again by replaying its batch: transactions are taken
 oldest first, and each consumes the first row of its batch that fits.
 */
module CreditNames {
  import opened Prelude

  type BatchId = string
  type TxnId = string

  datatype RawRow = RawRow(outletId: string, awardType: string, amount: Option<int>, narration: string,
                           name: Option<string>)

  /** A transaction; `batch` is set for a credit of a batch. */
  datatype Txn = Txn(id: TxnId, batch: Option<BatchId>, points: int, description: string, at: int)

  /** A row that is still to be consumed, and where the batch has it. */
  datatype Slot = Slot(pos: nat, row: RawRow)

  datatype Key = Key(amount: Option<int>, text: string)

  function RowKey(s: Slot): Key { Key(s.row.amount, s.row.narration) }

  function TxnKey(tx: Txn): Key { Key(Some(tx.points), tx.description) }

  // ---- The pool of a batch ----------------------------------------------------------------------------

  predicate Wanted(r: RawRow, outlet: string) { r.outletId == outlet && r.awardType == "POINTS" }

  /** The POINTS rows of the outlet among the first `n` rows. */
  function PoolOf(rows: seq<RawRow>, outlet: string, n: nat): (pool: seq<Slot>)
    requires n <= |rows|
    ensures forall s | s in pool :: s.pos < n && rows[s.pos] == s.row && Wanted(s.row, outlet)
    ensures forall i | 0 <= i < n && Wanted(rows[i], outlet) :: Slot(i, rows[i]) in pool
    ensures DistinctPositions(pool)
  {
    if n == 0 then []
    else PoolOf(rows, outlet, n - 1) + if Wanted(rows[n - 1], outlet) then [Slot(n - 1, rows[n - 1])] else []
  }

  predicate DistinctPositions(pool: seq<Slot>) {
    forall i, j | 0 <= i < j < |pool| :: pool[i].pos != pool[j].pos
  }

  type Pools = map<BatchId, seq<Slot>>

  function PoolsOf(batches: map<BatchId, seq<RawRow>>, outlet: string): Pools {
    map b | b in batches :: PoolOf(batches[b], outlet, |batches[b]|)
  }

  // ---- One transaction ----------------------------------------------------------------------------------

  predicate Fits(s: Slot, tx: Txn, exact: bool) {
    s.row.amount == Some(tx.points) && (exact ==> s.row.narration == tx.description)
  }

  /** The first slot that fits, or the length of the pool. */
  function FirstFit(pool: seq<Slot>, tx: Txn, exact: bool): (i: nat)
    ensures i <= |pool| && (i < |pool| ==> Fits(pool[i], tx, exact))
    ensures forall j | 0 <= j < i :: !Fits(pool[j], tx, exact)
  {
    if pool == [] || Fits(pool[0], tx, exact) then 0 else 1 + FirstFit(pool[1..], tx, exact)
  }

  /** Amount and narration first, else the amount alone. */
  function Pick(pool: seq<Slot>, tx: Txn): (i: nat)
    ensures i <= |pool| && (i < |pool| ==> Fits(pool[i], tx, false))
  {
    var exact := FirstFit(pool, tx, true);
    if exact < |pool| then exact else FirstFit(pool, tx, false)
  }

  function Without(pool: seq<Slot>, i: nat): seq<Slot>
    requires i < |pool|
  {
    pool[..i] + pool[i + 1..]
  }

  function Taken(pools: Pools, tx: Txn): Option<Slot> {
    if tx.batch.None? || tx.batch.value !in pools then None
    else
      var pool := pools[tx.batch.value];
      var i := Pick(pool, tx);
      if i == |pool| then None else Some(pool[i])
  }

  function Rest(pools: Pools, tx: Txn): Pools {
    if Taken(pools, tx).None? then pools
    else
      var pool := pools[tx.batch.value];
      pools[tx.batch.value := Without(pool, Pick(pool, tx))]
  }

  /** What each transaction consumes, in the order given. */
  function Resolve(pools: Pools, txs: seq<Txn>): (got: seq<Option<Slot>>)
    ensures |got| == |txs|
  {
    if txs == [] then [] else [Taken(pools, txs[0])] + Resolve(Rest(pools, txs[0]), txs[1..])
  }

  // ---- The whole resolution -----------------------------------------------------------------------------

  /** The place of a transaction among older ones: after those of the same moment. */
  function Insert(txs: seq<Txn>, tx: Txn): seq<Txn> {
    if txs == [] || txs[|txs| - 1].at <= tx.at then txs + [tx]
    else Insert(txs[..|txs| - 1], tx) + [txs[|txs| - 1]]
  }

  /** A stable sort, oldest first. */
  function SortByTime(txs: seq<Txn>): seq<Txn> {
    if txs == [] then [] else Insert(SortByTime(txs[..|txs| - 1]), txs[|txs| - 1])
  }

  function Credits(txns: seq<Txn>): (r: seq<Txn>)
    ensures forall tx :: tx in r <==> tx in txns && tx.batch.Some?
  {
    if txns == [] then []
    else Credits(txns[..|txns| - 1]) +
         if txns[|txns| - 1].batch.Some? then [txns[|txns| - 1]] else []
  }

  function NameOf(got: Option<Slot>): Option<string> {
    if got.Some? then got.value.row.name else None
  }

  ghost predicate DistinctIds(txs: seq<Txn>) {
    forall i, j | 0 <= i < j < |txs| :: txs[i].id != txs[j].id
  }

  lemma {:induction false} InsertPermutes(txs: seq<Txn>, tx: Txn)
    ensures multiset(Insert(txs, tx)) == multiset(txs) + multiset{tx}
  {
    if txs != [] && txs[|txs| - 1].at > tx.at {
      InsertPermutes(txs[..|txs| - 1], tx);
      assert txs == txs[..|txs| - 1] + [txs[|txs| - 1]];
    }
  }

  lemma {:induction false} SortPermutes(txs: seq<Txn>)
    ensures multiset(SortByTime(txs)) == multiset(txs)
  {
    if txs != [] {
      SortPermutes(txs[..|txs| - 1]);
      InsertPermutes(SortByTime(txs[..|txs| - 1]), txs[|txs| - 1]);
      assert txs == txs[..|txs| - 1] + [txs[|txs| - 1]];
    }
  }

  predicate OldestFirst(txs: seq<Txn>) {
    forall i, j | 0 <= i < j < |txs| :: txs[i].at <= txs[j].at
  }

  lemma {:induction false} InsertKeepsOrder(txs: seq<Txn>, tx: Txn)
    requires OldestFirst(txs)
    ensures OldestFirst(Insert(txs, tx))
  {
    if txs != [] && txs[|txs| - 1].at > tx.at {
      var before, last := txs[..|txs| - 1], txs[|txs| - 1];
      InsertKeepsOrder(before, tx);
      InsertPermutes(before, tx);
      var placed := Insert(before, tx);
      forall i | 0 <= i < |placed| ensures placed[i].at <= last.at {
        assert placed[i] in multiset(placed);
        assert placed[i] == tx || placed[i] in before;
      }
    }
  }

  lemma {:induction false} SortOrders(txs: seq<Txn>)
    ensures OldestFirst(SortByTime(txs))
  {
    if txs != [] {
      SortOrders(txs[..|txs| - 1]);
      InsertKeepsOrder(SortByTime(txs[..|txs| - 1]), txs[|txs| - 1]);
    }
  }

  lemma {:induction false} AtMostOnce(txs: seq<Txn>, x: Txn)
    requires DistinctIds(txs)
    ensures multiset(txs)[x] <= 1
  {
    if txs != [] {
      var before := txs[..|txs| - 1];
      AtMostOnce(before, x);
      assert txs == before + [txs[|txs| - 1]];
      if x in before {
        var i :| 0 <= i < |before| && before[i] == x;
        assert x.id != txs[|txs| - 1].id;
      }
    }
  }

  lemma TwiceCounts(txs: seq<Txn>, i: int, j: int)
    requires 0 <= i < j < |txs| && txs[i] == txs[j]
    ensures multiset(txs)[txs[i]] >= 2
  {
    assert txs == txs[..j] + txs[j..];
    assert txs[i] in txs[..j] by { assert txs[..j][i] == txs[i]; }
    assert txs[i] in txs[j..] by { assert txs[j..][0] == txs[j]; }
  }

  /** Transactions with ids of their own keep them, in any order. */
  lemma OnceEach(txs: seq<Txn>, others: seq<Txn>)
    requires DistinctIds(txs) && multiset(others) <= multiset(txs)
    ensures DistinctIds(others)
  {
    forall i, j | 0 <= i < j < |others| ensures others[i].id != others[j].id {
      assert others[i] in multiset(others) && others[j] in multiset(others);
      var k :| 0 <= k < |txs| && txs[k] == others[i];
      var l :| 0 <= l < |txs| && txs[l] == others[j];
      if others[i] == others[j] {
        TwiceCounts(others, i, j);
        AtMostOnce(txs, others[i]);
      }
    }
  }

  lemma {:induction false} CreditsAreSome(txns: seq<Txn>)
    ensures multiset(Credits(txns)) <= multiset(txns)
  {
    if txns != [] {
      CreditsAreSome(txns[..|txns| - 1]);
      assert txns == txns[..|txns| - 1] + [txns[|txns| - 1]];
    }
  }

  /** The credits, oldest first. */
  function Replay(txns: seq<Txn>): seq<Txn> { SortByTime(Credits(txns)) }

  lemma ReplayIsTheCredits(txns: seq<Txn>)
    requires DistinctIds(txns)
    ensures DistinctIds(Replay(txns)) && OldestFirst(Replay(txns))
    ensures multiset(Replay(txns)) == multiset(Credits(txns))
    ensures forall tx :: tx in Replay(txns) <==> tx in txns && tx.batch.Some?
  {
    CreditsAreSome(txns);
    SortPermutes(Credits(txns));
    SortOrders(Credits(txns));
    OnceEach(txns, Replay(txns));
    forall tx ensures tx in Replay(txns) <==> tx in Credits(txns) {
      assert tx in multiset(Replay(txns)) <==> tx in multiset(Credits(txns));
    }
  }

  /** One credit's turn: it takes its row out of the pool of its batch. */
  method Consume(pools: Pools, tx: Txn) returns (rest: Pools, name: Option<string>)
    requires tx.batch.Some?
    ensures rest == Rest(pools, tx) && name == NameOf(Taken(pools, tx))
  {
    var b := tx.batch.value;
    if b !in pools || pools[b] == [] { return pools, None; }
    var i := FirstFit(pools[b], tx, true);
    if i == |pools[b]| { i := FirstFit(pools[b], tx, false); }
    if i == |pools[b]| { return pools, None; }
    name := pools[b][i].row.name;
    rest := pools[b := Without(pools[b], i)];
  }

  /** The first `n` transactions have the names of what they got, and nobody else has one. */
  ghost predicate Named(names: map<TxnId, Option<string>>, txs: seq<Txn>, got: seq<Option<Slot>>, n: nat)
    requires n <= |txs| == |got|
  {
    && (forall id | id in names :: exists k :: 0 <= k < n && txs[k].id == id)
    && forall k | 0 <= k < n :: txs[k].id in names && names[txs[k].id] == NameOf(got[k])
  }

  lemma OneMoreName(names: map<TxnId, Option<string>>, txs: seq<Txn>, got: seq<Option<Slot>>, n: nat)
    requires n < |txs| == |got| && DistinctIds(txs) && Named(names, txs, got, n)
    ensures Named(names[txs[n].id := NameOf(got[n])], txs, got, n + 1)
  {
  }

  lemma NextResolved(pools: Pools, txs: seq<Txn>, got: seq<Option<Slot>>, n: nat)
    requires n < |txs| == |got| && got[n..] == Resolve(pools, txs[n..])
    ensures got[n] == Taken(pools, txs[n]) && got[n + 1..] == Resolve(Rest(pools, txs[n]), txs[n + 1..])
  {
    assert got[n] == got[n..][0] && got[n + 1..] == got[n..][1..];
    assert txs[n..][0] == txs[n] && txs[n..][1..] == txs[n + 1..];
  }

  // ---- No row twice -------------------------------------------------------------------------------------

  ghost predicate PositionsDistinct(pools: Pools) {
    forall b | b in pools :: DistinctPositions(pools[b])
  }

  /** A slot of the pool is left over, or is the one taken - never both. */
  lemma RestIsWithout(pools: Pools, tx: Txn, b: BatchId, s: Slot)
    requires PositionsDistinct(pools) && b in pools
    ensures PositionsDistinct(Rest(pools, tx)) && b in Rest(pools, tx)
    ensures s in Rest(pools, tx)[b] <==>
      s in pools[b] && !(tx.batch == Some(b) && Taken(pools, tx) == Some(s))
    ensures tx.batch == Some(b) && Taken(pools, tx).Some? ==> Taken(pools, tx).value in pools[b]
  {
    if tx.batch == Some(b) && Taken(pools, tx).Some? {
      var pool := pools[b];
      var i := Pick(pool, tx);
      assert pool == pool[..i] + [pool[i]] + pool[i + 1..];
    }
  }

  lemma {:induction false} TakenFromPool(pools: Pools, txs: seq<Txn>, k: nat)
    requires PositionsDistinct(pools) && k < |txs| && Resolve(pools, txs)[k].Some?
    ensures txs[k].batch.Some? && txs[k].batch.value in pools
    ensures Resolve(pools, txs)[k].value in pools[txs[k].batch.value]
    ensures Fits(Resolve(pools, txs)[k].value, txs[k], false)
    decreases k
  {
    if k > 0 {
      var b := txs[k].batch;
      TakenFromPool(Rest(pools, txs[0]), txs[1..], k - 1);
      PoolsStay(pools, txs[0]);
      RestIsWithout(pools, txs[0], b.value, Resolve(pools, txs)[k].value);
    }
  }

  lemma PoolsStay(pools: Pools, tx: Txn)
    requires PositionsDistinct(pools)
    ensures Rest(pools, tx).Keys == pools.Keys && PositionsDistinct(Rest(pools, tx))
  {
    forall b | b in pools ensures DistinctPositions(Rest(pools, tx)[b]) {
      if pools[b] != [] { RestIsWithout(pools, tx, b, pools[b][0]); }
    }
  }

  /** A row that one credit takes is gone for every later one. */
  lemma {:induction false} GoneAfterTaken(pools: Pools, txs: seq<Txn>, b: BatchId, s: Slot, k: nat)
    requires PositionsDistinct(pools) && k < |txs| && b in pools && s !in pools[b]
    requires txs[k].batch == Some(b)
    ensures Resolve(pools, txs)[k] != Some(s)
  {
    if Resolve(pools, txs)[k] == Some(s) { TakenFromPool(pools, txs, k); }
  }

  /** No row of a batch is given to two credits; each gets a row of its own batch and its own amount. */
  lemma {:induction false} NoRowTwice(pools: Pools, txs: seq<Txn>, j: nat, k: nat)
    requires PositionsDistinct(pools) && j < k < |txs|
    requires txs[j].batch == txs[k].batch && Resolve(pools, txs)[j].Some?
    ensures Resolve(pools, txs)[k] != Resolve(pools, txs)[j]
    decreases j
  {
    PoolsStay(pools, txs[0]);
    TakenFromPool(pools, txs, j);
    var b := txs[j].batch.value;
    if j == 0 {
      var s := Resolve(pools, txs)[0].value;
      RestIsWithout(pools, txs[0], b, s);
      GoneAfterTaken(Rest(pools, txs[0]), txs[1..], b, s, k - 1);
    } else {
      NoRowTwice(Rest(pools, txs[0]), txs[1..], j - 1, k - 1);
    }
  }

  // ---- When the fallback never fires ----------------------------------------------------------------------

  /** How many rows of a pool have an amount and narration. */
  function RowCount(pool: seq<Slot>, key: Key): nat {
    if pool == [] then 0 else (if RowKey(pool[0]) == key then 1 else 0) + RowCount(pool[1..], key)
  }

  predicate HasKey(tx: Txn, b: BatchId, key: Key) { tx.batch == Some(b) && TxnKey(tx) == key }

  /** How many transactions of a batch have them. */
  function TxnCount(txs: seq<Txn>, b: BatchId, key: Key): nat {
    if txs == [] then 0 else (if HasKey(txs[0], b, key) then 1 else 0) + TxnCount(txs[1..], b, key)
  }

  lemma {:induction false} RowCountAdd(p: seq<Slot>, q: seq<Slot>, key: Key)
    ensures RowCount(p + q, key) == RowCount(p, key) + RowCount(q, key)
  {
    if p == [] {
      assert p + q == q;
    } else {
      RowCountAdd(p[1..], q, key);
      assert (p + q)[1..] == p[1..] + q;
    }
  }

  lemma {:induction false} RowCountWithout(pool: seq<Slot>, i: nat, key: Key)
    requires i < |pool|
    ensures RowCount(pool, key) == RowCount(Without(pool, i), key) + if RowKey(pool[i]) == key then 1 else 0
  {
    assert pool == pool[..i] + pool[i..];
    RowCountAdd(pool[..i], pool[i..], key);
    RowCountAdd(pool[..i], pool[i + 1..], key);
    assert pool[i..][1..] == pool[i + 1..];
  }

  lemma {:induction false} KeyHasRow(pool: seq<Slot>, key: Key)
    requires RowCount(pool, key) > 0
    ensures exists i :: 0 <= i < |pool| && RowKey(pool[i]) == key
  {
    if RowKey(pool[0]) != key {
      KeyHasRow(pool[1..], key);
      var i :| 0 <= i < |pool[1..]| && RowKey(pool[1..][i]) == key;
      assert RowKey(pool[i + 1]) == key;
    }
  }

  /** Every batch has, for each amount and narration, at least as many rows as credits. */
  ghost predicate Covered(pools: Pools, txs: seq<Txn>) {
    && (forall tx | tx in txs :: tx.batch.Some? && tx.batch.value in pools)
    && forall b, key | b in pools :: TxnCount(txs, b, key) <= RowCount(pools[b], key)
  }

  /** What one credit takes out of a pool. */
  lemma {:induction false} RestCount(pools: Pools, tx: Txn, b: BatchId, key: Key)
    requires b in pools
    ensures b in Rest(pools, tx) && RowCount(pools[b], key) == RowCount(Rest(pools, tx)[b], key) +
      if tx.batch == Some(b) && Taken(pools, tx).Some? && RowKey(Taken(pools, tx).value) == key then 1 else 0
  {
    if tx.batch == Some(b) && Taken(pools, tx).Some? { RowCountWithout(pools[b], Pick(pools[b], tx), key); }
  }

  /** A credit that is covered takes a row with its own amount and narration. */
  lemma {:induction false} TakesExact(pools: Pools, txs: seq<Txn>)
    requires txs != [] && Covered(pools, txs)
    ensures txs[0].batch.Some? && txs[0].batch.value in pools
    ensures Taken(pools, txs[0]).Some? && RowKey(Taken(pools, txs[0]).value) == TxnKey(txs[0])
  {
    var tx := txs[0];
    assert tx in txs;
    var pool := pools[tx.batch.value];
    assert TxnCount(txs, tx.batch.value, TxnKey(tx)) <= RowCount(pool, TxnKey(tx));
    KeyHasRow(pool, TxnKey(tx));
    var i :| 0 <= i < |pool| && RowKey(pool[i]) == TxnKey(tx);
    assert Fits(pool[i], tx, true);
  }

  /** Taking the first credit's row takes its key away on both sides. */
  lemma {:induction false} CountsFall(pools: Pools, txs: seq<Txn>, b: BatchId, key: Key)
    requires txs != [] && Covered(pools, txs) && b in pools
    ensures var n := if HasKey(txs[0], b, key) then 1 else 0;
      && b in Rest(pools, txs[0])
      && RowCount(pools[b], key) == RowCount(Rest(pools, txs[0])[b], key) + n
      && TxnCount(txs, b, key) == TxnCount(txs[1..], b, key) + n
  {
    TakesExact(pools, txs);
    RestCount(pools, txs[0], b, key);
  }

  /** After the first credit the others are covered. */
  lemma {:induction false} OthersAreCovered(pools: Pools, txs: seq<Txn>)
    requires PositionsDistinct(pools) && txs != [] && Covered(pools, txs)
    ensures Covered(Rest(pools, txs[0]), txs[1..])
  {
    PoolsStay(pools, txs[0]);
    forall b, key | b in pools
      ensures TxnCount(txs[1..], b, key) <= RowCount(Rest(pools, txs[0])[b], key)
    {
      CountsFall(pools, txs, b, key);
    }
  }

  lemma LaterResolved(pools: Pools, txs: seq<Txn>, k: nat)
    requires 0 < k < |txs|
    ensures txs[1..][k - 1] == txs[k] && Resolve(pools, txs)[k] == Resolve(Rest(pools, txs[0]), txs[1..])[k - 1]
  {
  }

  /** When the rows cover the credits, every credit takes a row with its own amount and narration: the
      amount alone never decides. */
  lemma {:induction false} CoveredIsExact(pools: Pools, txs: seq<Txn>, k: nat)
    requires PositionsDistinct(pools) && Covered(pools, txs) && k < |txs|
    ensures Resolve(pools, txs)[k].Some? && RowKey(Resolve(pools, txs)[k].value) == TxnKey(txs[k])
    decreases k
  {
    if k == 0 {
      TakesExact(pools, txs);
    } else {
      OthersAreCovered(pools, txs);
      PoolsStay(pools, txs[0]);
      LaterResolved(pools, txs, k);
      CoveredIsExact(Rest(pools, txs[0]), txs[1..], k - 1);
    }
  }

  /** What is left of the pools in the end. */
  function Left(pools: Pools, txs: seq<Txn>): Pools {
    if txs == [] then pools else Left(Rest(pools, txs[0]), txs[1..])
  }

  lemma {:induction false} LeftIsTheDifference(pools: Pools, txs: seq<Txn>, b: BatchId, key: Key)
    requires PositionsDistinct(pools) && Covered(pools, txs) && b in pools
    ensures b in Left(pools, txs)
    ensures RowCount(pools[b], key) == RowCount(Left(pools, txs)[b], key) + TxnCount(txs, b, key)
    decreases |txs|
  {
    if txs != [] {
      CountsFall(pools, txs, b, key);
      OthersAreCovered(pools, txs);
      PoolsStay(pools, txs[0]);
      LeftIsTheDifference(Rest(pools, txs[0]), txs[1..], b, key);
    }
  }

  ghost predicate TakenAt(pools: Pools, txs: seq<Txn>, b: BatchId, s: Slot, k: nat) {
    k < |txs| && txs[k].batch == Some(b) && Resolve(pools, txs)[k] == Some(s)
  }

  lemma {:induction false} LeftOrTaken(pools: Pools, txs: seq<Txn>, b: BatchId, s: Slot)
    requires PositionsDistinct(pools) && b in pools && s in pools[b]
    ensures (b in Left(pools, txs) && s in Left(pools, txs)[b]) || exists k: nat :: TakenAt(pools, txs, b, s, k)
    decreases |txs|
  {
    if txs != [] {
      RestIsWithout(pools, txs[0], b, s);
      PoolsStay(pools, txs[0]);
      if txs[0].batch == Some(b) && Taken(pools, txs[0]) == Some(s) {
        assert TakenAt(pools, txs, b, s, 0);
      } else {
        LeftOrTaken(Rest(pools, txs[0]), txs[1..], b, s);
        if k: nat :| TakenAt(Rest(pools, txs[0]), txs[1..], b, s, k) {
          assert TakenAt(pools, txs, b, s, k + 1);
        }
      }
    }
  }

  /** When the credits of a batch are exactly the credits of its rows - in any order, with any ties - every
      row is taken by one of them. */
  lemma EveryRowIsTaken(pools: Pools, txs: seq<Txn>, b: BatchId, s: Slot)
    requires PositionsDistinct(pools) && Covered(pools, txs) && b in pools && s in pools[b]
    requires forall key :: TxnCount(txs, b, key) == RowCount(pools[b], key)
    ensures exists k: nat :: TakenAt(pools, txs, b, s, k)
  {
    LeftOrTaken(pools, txs, b, s);
    LeftIsTheDifference(pools, txs, b, RowKey(s));
    var left := Left(pools, txs)[b];
    if s in left {
      var i :| 0 <= i < |left| && left[i] == s;
      RowCountWithout(left, i, RowKey(s));
    }
  }

  // ---- Whatever the order of the request ------------------------------------------------------------------

  lemma {:induction false} LastCounts(txs: seq<Txn>, tx: Txn, b: BatchId, key: Key)
    ensures TxnCount(txs + [tx], b, key) == TxnCount(txs, b, key) + if HasKey(tx, b, key) then 1 else 0
  {
    if txs == [] {
      assert txs + [tx] == [tx] && [tx][1..] == [];
    } else {
      LastCounts(txs[1..], tx, b, key);
      assert (txs + [tx])[1..] == txs[1..] + [tx];
    }
  }

  lemma {:induction false} InsertCounts(txs: seq<Txn>, tx: Txn, b: BatchId, key: Key)
    ensures TxnCount(Insert(txs, tx), b, key) == TxnCount(txs + [tx], b, key)
  {
    if txs != [] && txs[|txs| - 1].at > tx.at {
      var before, last := txs[..|txs| - 1], txs[|txs| - 1];
      InsertCounts(before, tx, b, key);
      LastCounts(Insert(before, tx), last, b, key);
      LastCounts(before, tx, b, key);
      LastCounts(before, last, b, key);
      LastCounts(txs, tx, b, key);
      assert txs == before + [last];
    }
  }

  /** The counts do not depend on the order of the credits. */
  lemma {:induction false} SortCounts(txs: seq<Txn>, b: BatchId, key: Key)
    ensures TxnCount(SortByTime(txs), b, key) == TxnCount(txs, b, key)
  {
    if txs != [] {
      var before, last := txs[..|txs| - 1], txs[|txs| - 1];
      SortCounts(before, b, key);
      InsertCounts(SortByTime(before), last, b, key);
      LastCounts(SortByTime(before), last, b, key);
      LastCounts(before, last, b, key);
      assert txs == before + [last];
    }
  }

  lemma {:induction false} OnlyCreditsCount(txns: seq<Txn>, b: BatchId, key: Key)
    ensures TxnCount(Credits(txns), b, key) == TxnCount(txns, b, key)
  {
    if txns != [] {
      var before, tx := txns[..|txns| - 1], txns[|txns| - 1];
      OnlyCreditsCount(before, b, key);
      assert txns == before + [tx];
      LastCounts(before, tx, b, key);
      if tx.batch.Some? {
        LastCounts(Credits(before), tx, b, key);
      } else {
        assert Credits(txns) == Credits(before);
      }
    }
  }

  /** The credits among the transactions are the credits of the outlet's POINTS rows: for each batch, the
      same amounts and narrations, equally often. */
  ghost predicate CreditsOfRows(pools: Pools, txns: seq<Txn>) {
    && (forall tx | tx in txns && tx.batch.Some? :: tx.batch.value in pools)
    && forall b, key | b in pools :: TxnCount(txns, b, key) == RowCount(pools[b], key)
  }

  /** Then replaying is a bijection between the credits and the rows that keeps amount and narration,
      whatever the order of the request and however the times tie. */
  lemma ReplayIsABijection(batches: map<BatchId, seq<RawRow>>, outlet: string, txns: seq<Txn>)
    requires DistinctIds(txns) && CreditsOfRows(PoolsOf(batches, outlet), txns)
    ensures var pools, txs := PoolsOf(batches, outlet), Replay(txns); var got := Resolve(pools, txs);
      && (forall k: nat | k < |txs| :: got[k].Some? && RowKey(got[k].value) == TxnKey(txs[k]))
      && (forall j: nat, k: nat | j < k < |txs| && txs[j].batch == txs[k].batch :: got[j] != got[k])
      && (forall b, s | b in pools && s in pools[b] :: exists k: nat :: TakenAt(pools, txs, b, s, k))
  {
    var pools, txs := PoolsOf(batches, outlet), Replay(txns);
    ReplayIsTheCredits(txns);
    forall b, key | b in pools ensures TxnCount(txs, b, key) == RowCount(pools[b], key) {
      SortCounts(Credits(txns), b, key);
      OnlyCreditsCount(txns, b, key);
    }
    assert Covered(pools, txs);
    forall k: nat | k < |txs|
      ensures Resolve(pools, txs)[k].Some? && RowKey(Resolve(pools, txs)[k].value) == TxnKey(txs[k])
    {
      CoveredIsExact(pools, txs, k);
    }
    forall j: nat, k: nat | j < k < |txs| && txs[j].batch == txs[k].batch
      ensures Resolve(pools, txs)[j] != Resolve(pools, txs)[k]
    {
      NoRowTwice(pools, txs, j, k);
    }
    forall b, s | b in pools && s in pools[b] ensures exists k: nat :: TakenAt(pools, txs, b, s, k) {
      EveryRowIsTaken(pools, txs, b, s);
    }
  }

  // ---- Its own row ------------------------------------------------------------------------------------------

  function OfBatch(txs: seq<Txn>, b: BatchId): seq<Txn> {
    if txs == [] then []
    else (if txs[0].batch == Some(b) then [txs[0]] else []) + OfBatch(txs[1..], b)
  }

  lemma {:induction false} OfBatchCounts(txs: seq<Txn>, b: BatchId, x: Txn)
    ensures multiset(OfBatch(txs, b))[x] == if x.batch == Some(b) then multiset(txs)[x] else 0
  {
    if txs != [] {
      OfBatchCounts(txs[1..], b, x);
      assert txs == [txs[0]] + txs[1..];
    }
  }

  lemma {:induction false} OfBatchKeepsOrder(txs: seq<Txn>, b: BatchId)
    requires OldestFirst(txs)
    ensures OldestFirst(OfBatch(txs, b)) && forall x | x in OfBatch(txs, b) :: x in txs
  {
    if txs != [] {
      assert forall x | x in txs[1..] :: x in txs && txs[0].at <= x.at;
      OfBatchKeepsOrder(txs[1..], b);
    }
  }

  predicate StrictlyLater(txs: seq<Txn>) {
    forall i, j | 0 <= i < j < |txs| :: txs[i].at < txs[j].at
  }

  lemma {:induction false} SameFirst(a: seq<Txn>, c: seq<Txn>)
    requires a != [] && c != [] && StrictlyLater(a) && OldestFirst(c) && multiset(a) == multiset(c)
    ensures a[0] == c[0]
  {
    assert c[0] in multiset(a) && a[0] in multiset(c);
    var i :| 0 <= i < |a| && a[i] == c[0];
    var j :| 0 <= j < |c| && c[j] == a[0];
  }

  lemma {:induction false} OneOrder(a: seq<Txn>, c: seq<Txn>)
    requires StrictlyLater(a) && OldestFirst(c) && multiset(a) == multiset(c)
    ensures a == c
  {
    assert |multiset(a)| == |a| && |multiset(c)| == |c|;
    if a != [] {
      SameFirst(a, c);
      assert a == [a[0]] + a[1..] && c == [c[0]] + c[1..];
      assert multiset(a[1..]) == multiset(a) - multiset{a[0]};
      assert multiset(c[1..]) == multiset(c) - multiset{c[0]};
      OneOrder(a[1..], c[1..]);
    }
  }

  /** The credits of a batch, in the order they are met, have the keys of its rows in row order. */
  ghost predicate InStep(pool: seq<Slot>, own: seq<Txn>) {
    |own| == |pool| && forall i | 0 <= i < |own| :: TxnKey(own[i]) == RowKey(pool[i])
  }

  /** The credits of the batch after the first transaction. */
  function OwnAfter(txs: seq<Txn>, b: BatchId, own: seq<Txn>): seq<Txn> {
    if txs != [] && own != [] && txs[0].batch == Some(b) then own[1..] else own
  }

  lemma {:induction false} OwnOfRest(txs: seq<Txn>, b: BatchId, own: seq<Txn>)
    requires txs != [] && own == OfBatch(txs, b)
    ensures OfBatch(txs[1..], b) == OwnAfter(txs, b, own)
    ensures txs[0].batch == Some(b) ==> own != [] && own[0] == txs[0]
  {
  }

  /** One step: a credit of the batch takes the first row, any other leaves the pool alone. */
  lemma {:induction false} StaysInStep(pools: Pools, txs: seq<Txn>, b: BatchId, own: seq<Txn>)
    requires txs != [] && b in pools && InStep(pools[b], own)
    requires txs[0].batch == Some(b) ==> own != [] && own[0] == txs[0]
    ensures b in Rest(pools, txs[0]) && InStep(Rest(pools, txs[0])[b], OwnAfter(txs, b, own))
    ensures if txs[0].batch == Some(b) then
        pools[b] != [] && Taken(pools, txs[0]) == Some(pools[b][0]) && Rest(pools, txs[0])[b] == pools[b][1..]
      else Rest(pools, txs[0])[b] == pools[b]
  {
    if txs[0].batch == Some(b) { assert Fits(pools[b][0], txs[0], true); }
  }

  lemma {:induction false} TakenLater(pools: Pools, txs: seq<Txn>, b: BatchId, s: Slot, k: nat)
    requires txs != [] && TakenAt(Rest(pools, txs[0]), txs[1..], b, s, k)
    ensures TakenAt(pools, txs, b, s, k + 1) && txs[k + 1] == txs[1..][k]
  {
    LaterResolved(pools, txs, k + 1);
  }

  /** The i-th credit of the batch takes the i-th row of its pool. */
  ghost predicate TakesOwn(pools: Pools, txs: seq<Txn>, b: BatchId, s: Slot, own: Txn) {
    exists k: nat :: TakenAt(pools, txs, b, s, k) && txs[k] == own
  }

  lemma {:induction false} TakesOwnLater(pools: Pools, txs: seq<Txn>, b: BatchId, s: Slot, own: Txn)
    requires txs != [] && TakesOwn(Rest(pools, txs[0]), txs[1..], b, s, own)
    ensures TakesOwn(pools, txs, b, s, own)
  {
    var k: nat :| TakenAt(Rest(pools, txs[0]), txs[1..], b, s, k) && txs[1..][k] == own;
    TakenLater(pools, txs, b, s, k);
  }

  /** Then the i-th of them takes the i-th row. */
  lemma {:induction false} InStepTakesOwn(pools: Pools, txs: seq<Txn>, b: BatchId, own: seq<Txn>, i: nat)
    requires b in pools && own == OfBatch(txs, b) && InStep(pools[b], own) && i < |own|
    ensures TakesOwn(pools, txs, b, pools[b][i], own[i])
    decreases |txs|
  {
    OwnOfRest(txs, b, own);
    StaysInStep(pools, txs, b, own);
    if txs[0].batch == Some(b) && i == 0 {
      assert TakenAt(pools, txs, b, pools[b][0], 0);
    } else {
      var rest, own' := Rest(pools, txs[0]), OwnAfter(txs, b, own);
      var i' := if txs[0].batch == Some(b) then i - 1 else i;
      InStepTakesOwn(rest, txs[1..], b, own', i');
      TakesOwnLater(pools, txs, b, rest[b][i'], own'[i']);
    }
  }

  /** When the credits of a batch were made one after the other in row order, each at a later time, every
      one of them gets its own row - whatever the order of the request. */
  lemma EachGetsItsOwnRow(batches: map<BatchId, seq<RawRow>>, outlet: string, txns: seq<Txn>, b: BatchId,
                          own: seq<Txn>, i: nat)
    requires DistinctIds(txns) && b in batches && i < |own|
    requires StrictlyLater(own) && InStep(PoolsOf(batches, outlet)[b], own)
    requires multiset(OfBatch(txns, b)) == multiset(own)
    ensures TakesOwn(PoolsOf(batches, outlet), Replay(txns), b, PoolsOf(batches, outlet)[b][i], own[i])
  {
    var txs := Replay(txns);
    ReplayIsTheCredits(txns);
    forall x ensures multiset(OfBatch(txs, b))[x] == multiset(own)[x] {
      OfBatchCounts(txs, b, x);
      OfBatchCounts(txns, b, x);
      CreditsCount(txns, x);
    }
    OfBatchKeepsOrder(txs, b);
    OneOrder(own, OfBatch(txs, b));
    InStepTakesOwn(PoolsOf(batches, outlet), txs, b, own, i);
  }

  lemma {:induction false} CreditsCount(txns: seq<Txn>, x: Txn)
    ensures multiset(Credits(txns))[x] == if x.batch.Some? then multiset(txns)[x] else 0
  {
    if txns != [] {
      CreditsCount(txns[..|txns| - 1], x);
      assert txns == txns[..|txns| - 1] + [txns[|txns| - 1]];
    }
  }

  // ---- Which row ------------------------------------------------------------------------------------------

  /** Rows are kept in the order of the batch. */
  predicate InOrder(pool: seq<Slot>) {
    forall i, j | 0 <= i < j < |pool| :: pool[i].pos < pool[j].pos
  }

  ghost predicate AllInOrder(pools: Pools) { forall b | b in pools :: InOrder(pools[b]) }

  lemma {:induction false} PoolIsInOrder(rows: seq<RawRow>, outlet: string, n: nat)
    requires n <= |rows|
    ensures InOrder(PoolOf(rows, outlet, n))
  {
    if n > 0 { PoolIsInOrder(rows, outlet, n - 1); }
  }

  lemma RestIsInOrder(pools: Pools, tx: Txn)
    requires AllInOrder(pools)
    ensures AllInOrder(Rest(pools, tx)) && Rest(pools, tx).Keys == pools.Keys
  {
  }

  /** At the turn of transaction `k`, nobody has taken slot `s` of its batch. */
  ghost predicate FreeSlot(pools: Pools, txs: seq<Txn>, k: nat, s: Slot)
    requires k < |txs|
  {
    txs[k].batch.Some? && txs[k].batch.value in pools && s in pools[txs[k].batch.value] &&
    forall j: nat | j < k && txs[j].batch == txs[k].batch :: Resolve(pools, txs)[j] != Some(s)
  }

  predicate SameAmount(s: Slot, tx: Txn) { s.row.amount == Some(tx.points) }

  predicate SameNarration(s: Slot, tx: Txn) { s.row.narration == tx.description }

  /** What transaction `k` gets: the first free row with its amount and narration; without one, the first free
      row with its amount; and nothing only when there is none of that amount. */
  ghost predicate GetsFirst(pools: Pools, txs: seq<Txn>, k: nat, got: Option<Slot>)
    requires k < |txs|
  {
    var tx := txs[k];
    match got
    case None => forall s | FreeSlot(pools, txs, k, s) :: !SameAmount(s, tx)
    case Some(g) =>
      && FreeSlot(pools, txs, k, g) && SameAmount(g, tx)
      && (forall s | FreeSlot(pools, txs, k, s) && SameAmount(s, tx) && SameNarration(s, tx) ::
            SameNarration(g, tx) && g.pos <= s.pos)
      && (!SameNarration(g, tx) ==>
            forall s | FreeSlot(pools, txs, k, s) && SameAmount(s, tx) :: g.pos <= s.pos)
  }

  lemma FirstTakesFirst(pools: Pools, txs: seq<Txn>)
    requires AllInOrder(pools) && txs != []
    ensures GetsFirst(pools, txs, 0, Taken(pools, txs[0]))
  {
    var tx := txs[0];
    if tx.batch.Some? && tx.batch.value in pools {
      var pool := pools[tx.batch.value];
      var i, e, f := Pick(pool, tx), FirstFit(pool, tx, true), FirstFit(pool, tx, false);
      forall s | s in pool && SameAmount(s, tx) ensures i < |pool| {
        var j :| 0 <= j < |pool| && pool[j] == s;
        assert Fits(pool[j], tx, false);
      }
      forall s | s in pool && SameAmount(s, tx) && SameNarration(s, tx)
        ensures e < |pool| && pool[e].pos <= s.pos
      {
        var j :| 0 <= j < |pool| && pool[j] == s;
        assert Fits(pool[j], tx, true);
      }
      forall s | s in pool && SameAmount(s, tx) ensures f < |pool| && pool[f].pos <= s.pos {
        var j :| 0 <= j < |pool| && pool[j] == s;
        assert Fits(pool[j], tx, false);
      }
    }
  }

  lemma FreeAfterFirst(pools: Pools, txs: seq<Txn>, k: nat, s: Slot)
    requires AllInOrder(pools) && 0 < k < |txs|
    ensures FreeSlot(pools, txs, k, s) <==> FreeSlot(Rest(pools, txs[0]), txs[1..], k - 1, s)
  {
    RestIsInOrder(pools, txs[0]);
    if txs[k].batch.Some? && txs[k].batch.value in pools {
      RestIsWithout(pools, txs[0], txs[k].batch.value, s);
      if FreeSlot(pools, txs, k, s) {
        forall j: nat | j < k - 1 && txs[1..][j].batch == txs[k].batch
          ensures Resolve(Rest(pools, txs[0]), txs[1..])[j] != Some(s)
        {
          LaterResolved(pools, txs, j + 1);
        }
      }
      if FreeSlot(Rest(pools, txs[0]), txs[1..], k - 1, s) {
        forall j: nat | j < k && txs[j].batch == txs[k].batch ensures Resolve(pools, txs)[j] != Some(s) {
          if j > 0 { LaterResolved(pools, txs, j); assert txs[1..][j - 1] == txs[j]; }
        }
      }
    }
  }

  /** Each transaction in its turn gets the first row that fits, and goes without only when no row of its batch
      and outlet with its amount is left. */
  lemma {:induction false} EachTakesFirst(pools: Pools, txs: seq<Txn>, k: nat)
    requires AllInOrder(pools) && k < |txs|
    ensures GetsFirst(pools, txs, k, Resolve(pools, txs)[k])
    decreases k
  {
    if k == 0 {
      FirstTakesFirst(pools, txs);
    } else {
      RestIsInOrder(pools, txs[0]);
      EachTakesFirst(Rest(pools, txs[0]), txs[1..], k - 1);
      LaterResolved(pools, txs, k);
      forall s { FreeAfterFirst(pools, txs, k, s); }
    }
  }

  // ---- Names ------------------------------------------------------------------------------------------------

  /** At the turn of credit `k`, row `p` of its batch is a POINTS row of the outlet that nobody has taken. */
  ghost predicate FreeRow(batches: map<BatchId, seq<RawRow>>, outlet: string, txs: seq<Txn>, at: seq<Option<nat>>,
                          k: nat, p: nat)
    requires k < |txs| == |at|
  {
    txs[k].batch.Some? && txs[k].batch.value in batches && p < |batches[txs[k].batch.value]| &&
    batches[txs[k].batch.value][p].outletId == outlet &&
    batches[txs[k].batch.value][p].awardType == "POINTS" &&
    forall j: nat | j < k && txs[j].batch == txs[k].batch :: at[j] != Some(p)
  }

  /** The row has the credit's amount - and its narration, when `exact`. */
  ghost predicate FreeMatch(batches: map<BatchId, seq<RawRow>>, outlet: string, txs: seq<Txn>, at: seq<Option<nat>>,
                            k: nat, p: nat, exact: bool)
    requires k < |txs| == |at|
  {
    FreeRow(batches, outlet, txs, at, k, p) &&
    batches[txs[k].batch.value][p].amount == Some(txs[k].points) &&
    (exact ==> batches[txs[k].batch.value][p].narration == txs[k].description)
  }

  /** Credit `k` takes the first row that is left with its amount and narration; if there is none, the first
      that is left with its amount; and none only if none of its amount is left. */
  ghost predicate TakesRow(batches: map<BatchId, seq<RawRow>>, outlet: string, txs: seq<Txn>, at: seq<Option<nat>>,
                           k: nat)
    requires k < |txs| == |at|
  {
    match at[k]
    case None => forall p :: !FreeMatch(batches, outlet, txs, at, k, p, false)
    case Some(p) =>
      && FreeMatch(batches, outlet, txs, at, k, p, false)
      && (forall q | FreeMatch(batches, outlet, txs, at, k, q, true) ::
            p <= q && FreeMatch(batches, outlet, txs, at, k, p, true))
      && (forall q | FreeMatch(batches, outlet, txs, at, k, q, false) ::
            p <= q || FreeMatch(batches, outlet, txs, at, k, p, true))
  }

  function PositionOf(got: Option<Slot>): Option<nat> { if got.Some? then Some(got.value.pos) else None }

  function Positions(got: seq<Option<Slot>>): (at: seq<Option<nat>>)
    ensures |at| == |got| && forall k | 0 <= k < |got| :: at[k] == PositionOf(got[k])
  {
    seq(|got|, k requires 0 <= k < |got| => PositionOf(got[k]))
  }

  lemma GotFromBatch(batches: map<BatchId, seq<RawRow>>, outlet: string, txs: seq<Txn>, k: nat)
    requires k < |txs| && Resolve(PoolsOf(batches, outlet), txs)[k].Some?
    ensures var s := Resolve(PoolsOf(batches, outlet), txs)[k].value;
      txs[k].batch.Some? && txs[k].batch.value in batches && s in PoolsOf(batches, outlet)[txs[k].batch.value] &&
      s.pos < |batches[txs[k].batch.value]| && s == Slot(s.pos, batches[txs[k].batch.value][s.pos])
  {
    TakenFromPool(PoolsOf(batches, outlet), txs, k);
  }

  lemma FreeRowIsSlot(batches: map<BatchId, seq<RawRow>>, outlet: string, txs: seq<Txn>, k: nat, p: nat)
    requires k < |txs|
    ensures var pools := PoolsOf(batches, outlet); var at := Positions(Resolve(pools, txs));
      FreeRow(batches, outlet, txs, at, k, p) <==>
        && txs[k].batch.Some? && txs[k].batch.value in batches && p < |batches[txs[k].batch.value]|
        && FreeSlot(pools, txs, k, Slot(p, batches[txs[k].batch.value][p]))
  {
    var pools := PoolsOf(batches, outlet);
    var got := Resolve(pools, txs);
    if txs[k].batch.Some? && txs[k].batch.value in batches && p < |batches[txs[k].batch.value]| {
      var s := Slot(p, batches[txs[k].batch.value][p]);
      forall j: nat | j < k && txs[j].batch == txs[k].batch ensures got[j] == Some(s) <==> PositionOf(got[j]) == Some(p) {
        if got[j].Some? { GotFromBatch(batches, outlet, txs, j); }
      }
    }
  }

  lemma CreditTakesRow(batches: map<BatchId, seq<RawRow>>, outlet: string, txs: seq<Txn>, k: nat)
    requires k < |txs|
    ensures TakesRow(batches, outlet, txs, Positions(Resolve(PoolsOf(batches, outlet), txs)), k)
  {
    var pools := PoolsOf(batches, outlet);
    var got := Resolve(pools, txs)[k];
    forall b | b in batches { PoolIsInOrder(batches[b], outlet, |batches[b]|); }
    EachTakesFirst(pools, txs, k);
    forall p: nat { FreeRowIsSlot(batches, outlet, txs, k, p); }
    if got.Some? { GotFromBatch(batches, outlet, txs, k); }
  }

  /** The transactions of one moment, in the order given. */
  function AtTime(txs: seq<Txn>, at: int): seq<Txn> {
    if txs == [] then []
    else AtTime(txs[..|txs| - 1], at) + if txs[|txs| - 1].at == at then [txs[|txs| - 1]] else []
  }

  lemma {:induction false} InsertIsStable(txs: seq<Txn>, tx: Txn, at: int)
    requires OldestFirst(txs)
    ensures AtTime(Insert(txs, tx), at) == AtTime(txs, at) + if tx.at == at then [tx] else []
  {
    if txs == [] || txs[|txs| - 1].at <= tx.at {
      assert (txs + [tx])[..|txs|] == txs;
    } else {
      var before, last := txs[..|txs| - 1], txs[|txs| - 1];
      InsertIsStable(before, tx, at);
      assert Insert(txs, tx)[..|Insert(txs, tx)| - 1] == Insert(before, tx);
    }
  }
  lemma {:induction false} SortIsStable(txs: seq<Txn>, at: int)
    ensures AtTime(SortByTime(txs), at) == AtTime(txs, at)
  {
    if txs != [] {
      SortIsStable(txs[..|txs| - 1], at);
      SortOrders(txs[..|txs| - 1]);
      InsertIsStable(SortByTime(txs[..|txs| - 1]), txs[|txs| - 1], at);
    }
  }

  /** `txs` are the credits among `txns`, oldest first, and those of one moment in the order of the request. */
  ghost predicate ReplayOf(txs: seq<Txn>, txns: seq<Txn>) {
    && OldestFirst(txs) && DistinctIds(txs)
    && (forall tx :: tx in txs <==> tx in txns && tx.batch.Some?)
    && forall at :: AtTime(txs, at) == AtTime(Credits(txns), at)
  }

  /** Credit `k` has the name of the row it took, or none when it took none. */
  predicate NamedByRow(names: map<TxnId, Option<string>>, batches: map<BatchId, seq<RawRow>>, tx: Txn,
                       at: Option<nat>)
  {
    tx.id in names &&
    match at
    case None => names[tx.id] == None
    case Some(p) =>
      tx.batch.Some? && tx.batch.value in batches && p < |batches[tx.batch.value]| &&
      names[tx.id] == batches[tx.batch.value][p].name
  }

  /** Exactly the credits are named, each by its row. */
  ghost predicate NamedByRows(names: map<TxnId, Option<string>>, batches: map<BatchId, seq<RawRow>>, txs: seq<Txn>,
                              at: seq<Option<nat>>)
    requires |txs| == |at|
  {
    && (forall id :: id in names <==> exists k :: 0 <= k < |txs| && txs[k].id == id)
    && forall k | 0 <= k < |txs| :: NamedByRow(names, batches, txs[k], at[k])
  }

  lemma {:induction false} NameIsRow(names: map<TxnId, Option<string>>, batches: map<BatchId, seq<RawRow>>, outlet: string,
                  txs: seq<Txn>, k: nat)
    requires k < |txs| && txs[k].id in names
    requires names[txs[k].id] == NameOf(Resolve(PoolsOf(batches, outlet), txs)[k])
    ensures NamedByRow(names, batches, txs[k], PositionOf(Resolve(PoolsOf(batches, outlet), txs)[k]))
  {
    if Resolve(PoolsOf(batches, outlet), txs)[k].Some? { GotFromBatch(batches, outlet, txs, k); }
  }

  /** The names come about when the credits take their rows in this order. */
  ghost predicate Explains(names: map<TxnId, Option<string>>, batches: map<BatchId, seq<RawRow>>, outlet: string,
                           txns: seq<Txn>, txs: seq<Txn>, at: seq<Option<nat>>)
  {
    && ReplayOf(txs, txns) && |at| == |txs|
    && (forall k: nat | k < |txs| :: TakesRow(batches, outlet, txs, at, k))
    && NamedByRows(names, batches, txs, at)
  }

  /** Each credit gets the name of the row it takes, oldest credit first. */
  method ResolveCreditFieldNames(batches: map<BatchId, seq<RawRow>>, outlet: string, txns: seq<Txn>)
    returns (names: map<TxnId, Option<string>>)
    requires DistinctIds(txns)
    ensures exists txs, at :: Explains(names, batches, outlet, txns, txs, at)
    ensures Named(names, Replay(txns), Resolve(PoolsOf(batches, outlet), Replay(txns)), |Replay(txns)|)
  {
    var sorted := SortByTime(Credits(txns));
    ReplayIsTheCredits(txns);
    var pools := PoolsOf(batches, outlet);
    ghost var got := Resolve(pools, sorted);
    names := map[];
    for n := 0 to |sorted|
      invariant got[n..] == Resolve(pools, sorted[n..])
      invariant Named(names, sorted, got, n)
    {
      assert sorted[n] in sorted;
      NextResolved(pools, sorted, got, n);
      OneMoreName(names, sorted, got, n);
      var name: Option<string>;
      pools, name := Consume(pools, sorted[n]);
      names := names[sorted[n].id := name];
    }
    ReplayExplains(names, batches, outlet, txns);
  }

  lemma {:induction false} ReplayExplains(names: map<TxnId, Option<string>>, batches: map<BatchId, seq<RawRow>>,
                                          outlet: string, txns: seq<Txn>)
    requires DistinctIds(txns)
    requires Named(names, Replay(txns), Resolve(PoolsOf(batches, outlet), Replay(txns)), |Replay(txns)|)
    ensures exists txs, at :: Explains(names, batches, outlet, txns, txs, at)
  {
    var txs := Replay(txns);
    ReplayIsTheCredits(txns);
    forall k: nat | k < |txs| { NameIsRow(names, batches, outlet, txs, k); }
    forall k: nat | k < |txs| { CreditTakesRow(batches, outlet, txs, k); }
    forall time { SortIsStable(Credits(txns), time); }
    assert Explains(names, batches, outlet, txns, txs, Positions(Resolve(PoolsOf(batches, outlet), txs)));
  }
}
