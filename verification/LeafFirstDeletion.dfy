/**
 Emptying a table whose rows point at a parent row of the same table: leaves first, round after round,
 for at most a thousand rounds.
 */
module LeafFirstDeletion {
  import opened Prelude
  import opened ReportingGraph

  const ROUNDS := 1000

  /** The parents of the rows of `s`: a row is a leaf when it is not among them. */
  function ParentsOf(g: Graph, s: set<Id>): set<Id> {
    set c | c in s && c in g && g[c].Some? :: g[c].value
  }

  /** The foreign key: a parent has a row. */
  ghost predicate ParentsExist(g: Graph) { forall x | x in g && g[x].Some? :: g[x].value in g }

  /** The rows left after `n` rounds of taking the leaves off. */
  ghost function LeftAfter(g: Graph, n: nat): set<Id> {
    if n == 0 then g.Keys
    else LeftAfter(g, n - 1) * ParentsOf(g, LeftAfter(g, n - 1))
  }

  /** Round `n` finds rows left, all of them with children. */
  ghost predicate StuckAt(g: Graph, n: nat) {
    LeftAfter(g, n) != {} && LeftAfter(g, n + 1) == LeftAfter(g, n)
  }

  ghost predicate Stuck(g: Graph) { exists n: nat :: n < ROUNDS && StuckAt(g, n) }

  function Only(g: Graph, s: set<Id>): Graph { map x | x in g && x in s :: g[x] }

  // ---- The deletion -----------------------------------------------------------------------------------

  class SelfReferencingTable {
    var rows: Graph

    /** Deletes every row without a child, and no other. */
    method DeleteLeaves() returns (count: nat)
      modifies this
      ensures rows == Only(old(rows), old(rows).Keys * ParentsOf(old(rows), old(rows).Keys))
      ensures count == |old(rows)| - |rows| && (count == 0 <==> rows == old(rows))
    {
      var leaves := rows.Keys - ParentsOf(rows, rows.Keys);
      count := |leaves|;
      var kept := map x | x in rows && x !in leaves :: rows[x];
      assert kept.Keys == rows.Keys - leaves && |kept.Keys| == |rows.Keys| - |leaves|;
      rows := kept;
    }

    /** Empties the table: `fellBack` says whether it had to delete rows that still had children. */
    method DeleteLeafFirst() returns (total: nat, ghost fellBack: bool)
      modifies this
      ensures fellBack <==> Stuck(old(rows))
      ensures rows == if fellBack then map[] else Only(old(rows), LeftAfter(old(rows), ROUNDS))
      ensures total == |old(rows)| - |rows|
    {
      ghost var g := rows;
      total, fellBack := 0, false;
      var guard := 0;
      assert Holds(g, 0, rows) by { assert Only(g, g.Keys) == g; }
      while guard < ROUNDS
        invariant 0 <= guard <= ROUNDS && Holds(g, guard, rows) && !fellBack
        invariant total == |g| - |rows|
        invariant forall n: nat | n < guard :: !StuckAt(g, n)
      {
        if |rows| == 0 {
          HeldKeys(g, guard, rows);
          EmptyStays(g, guard);
          return;
        }
        ghost var h := rows;
        var count := DeleteLeaves();
        total := total + count;
        OneRound(g, guard, h, rows);
        if count == 0 {
          fellBack := true;
          total := total + |rows|;
          rows := map[];
          return;
        }
        guard := guard + 1;
      }
    }
  }

  lemma {:induction false} LeftIsInside(g: Graph, n: nat)
    ensures LeftAfter(g, n) <= g.Keys
  {
    if n > 0 { LeftIsInside(g, n - 1); }
  }

  /** The table holds what `n` rounds leave of `g`. */
  ghost predicate Holds(g: Graph, n: nat, h: Graph) { h == Only(g, LeftAfter(g, n)) }

  lemma {:induction false} HeldKeys(g: Graph, n: nat, h: Graph)
    requires Holds(g, n, h)
    ensures h.Keys == LeftAfter(g, n)
  {
    LeftIsInside(g, n);
  }

  /** Deleting the leaves of what `n` rounds leave. */
  lemma {:induction false} OneRound(g: Graph, n: nat, h: Graph, h': Graph)
    requires Holds(g, n, h) && h' == Only(h, h.Keys * ParentsOf(h, h.Keys))
    ensures Holds(g, n + 1, h') && (h' == h && h != map[] <==> StuckAt(g, n))
  {
    HeldKeys(g, n, h);
    assert ParentsOf(h, h.Keys) == ParentsOf(g, LeftAfter(g, n));
    assert LeftAfter(g, n + 1) == h.Keys * ParentsOf(h, h.Keys);
    assert h' == Only(g, LeftAfter(g, n + 1));
    HeldKeys(g, n + 1, h');
  }

  /** When nothing or everything is left by a round, the same holds ever after. */
  lemma {:induction false} RoundRepeats(g: Graph, n: nat, m: nat)
    requires LeftAfter(g, n + 1) == LeftAfter(g, n) && n <= m
    ensures LeftAfter(g, m) == LeftAfter(g, n)
  {
    if n < m {
      RoundRepeats(g, n, m - 1);
      if m - 1 > n { assert LeftAfter(g, m) == LeftAfter(g, n + 1); }
    }
  }

  lemma EmptyStays(g: Graph, n: nat)
    requires n <= ROUNDS && LeftAfter(g, n) == {} && forall m: nat | m < n :: !StuckAt(g, m)
    ensures LeftAfter(g, ROUNDS) == {} && !Stuck(g)
  {
    forall m: nat | m >= n ensures LeftAfter(g, m) == {} { RoundRepeats(g, n, m); }
    assert forall m: nat :: !(m < ROUNDS && StuckAt(g, m));
  }

  // ---- What is left, by depth ---------------------------------------------------------------------------

  /** Some row lies `n` steps below `x`. */
  ghost predicate Deep(g: Graph, x: Id, n: nat) { exists y :: y in g && Up(g, y, n) == Some(x) }

  lemma {:induction false} OneStepUp(g: Graph, y: Id, n: nat)
    requires y in g
    ensures Up(g, y, n + 1) == if g[y].Some? then Up(g, g[y].value, n) else None
  {
    assert Up(g, y, 0) == Some(y) && Up(g, y, 1) == g[y];
    UpAdds(g, y, 1, n);
    if g[y].None? { NobodyAbove(g, y, 1, n + 1); }
  }

  lemma {:induction false} DeeperIsDeep(g: Graph, x: Id, n: nat)
    requires ParentsExist(g) && Deep(g, x, n + 1)
    ensures Deep(g, x, n)
  {
    var y :| y in g && Up(g, y, n + 1) == Some(x);
    OneStepUp(g, y, n);
  }

  lemma {:induction false} DeeperHasChild(g: Graph, x: Id, n: nat)
    requires Deep(g, x, n + 1)
    ensures exists c :: c in g && g[c] == Some(x) && Deep(g, c, n)
  {
    var y :| y in g && Up(g, y, n + 1) == Some(x);
    var c := Up(g, y, n).value;
    assert c in g && g[c] == Some(x) && Deep(g, c, n);
  }

  lemma {:induction false} ChildMakesDeeper(g: Graph, x: Id, n: nat, c: Id)
    requires c in g && g[c] == Some(x) && Deep(g, c, n)
    ensures Deep(g, x, n + 1)
  {
    var y :| y in g && Up(g, y, n) == Some(c);
    assert Up(g, y, n + 1) == Some(x);
  }

  /** The rows of `s` are those with something `n` steps below them. */
  ghost predicate IsDeepSet(g: Graph, n: nat, s: set<Id>) {
    forall x {:trigger InWhenDeep(g, n, s, x)} :: InWhenDeep(g, n, s, x)
  }

  ghost predicate InWhenDeep(g: Graph, n: nat, s: set<Id>, x: Id) {
    x in s <==> x in g && Deep(g, x, n)
  }

  /** One round takes away one step of depth. */
  lemma {:induction false} RoundTakesAStep(g: Graph, n: nat, s: set<Id>, deeper: nat, t: set<Id>)
    requires ParentsExist(g) && IsDeepSet(g, n, s)
    requires deeper == n + 1 && t == s * ParentsOf(g, s)
    ensures IsDeepSet(g, deeper, t)
  {
    forall x ensures InWhenDeep(g, deeper, t, x) {
      assert InWhenDeep(g, n, s, x);
      if x in g && Deep(g, x, n + 1) {
        DeeperIsDeep(g, x, n);
        DeeperHasChild(g, x, n);
        var c :| c in g && g[c] == Some(x) && Deep(g, c, n);
        assert InWhenDeep(g, n, s, c);
      }
      if x in t {
        var c :| c in s && c in g && g[c] == Some(x);
        assert InWhenDeep(g, n, s, c);
        ChildMakesDeeper(g, x, n, c);
      }
    }
  }

  lemma {:induction false} AllRowsAreDeep(g: Graph)
    ensures IsDeepSet(g, 0, g.Keys)
  {
    forall x ensures InWhenDeep(g, 0, g.Keys, x) { assert Up(g, x, 0) == Some(x); }
  }

  /** What is left after each of the first rounds. */
  ghost predicate Rounds(g: Graph, left: seq<set<Id>>) {
    && (left != [] ==> left[0] == g.Keys)
    && forall n: nat | n + 1 < |left| :: left[n + 1] == left[n] * ParentsOf(g, left[n])
  }

  lemma {:induction false} RoundsAreDeep(g: Graph, left: seq<set<Id>>, n: nat)
    requires ParentsExist(g) && Rounds(g, left) && n < |left|
    ensures IsDeepSet(g, n, left[n])
  {
    if n == 0 {
      AllRowsAreDeep(g);
    } else {
      RoundsAreDeep(g, left, n - 1);
      assert left[n - 1 + 1] == left[n - 1] * ParentsOf(g, left[n - 1]);
      RoundTakesAStep(g, n - 1, left[n - 1], n, left[n]);
    }
  }

  /** After `n` rounds exactly the rows are left that have something `n` steps below them. */
  lemma {:induction false} LeftIsDeep(g: Graph, n: nat)
    requires ParentsExist(g)
    ensures IsDeepSet(g, n, LeftAfter(g, n))
  {
    var left := seq(n + 1, i requires 0 <= i => LeftAfter(g, i));
    RoundsAreDeep(g, left, n);
  }

  // ---- Forests ------------------------------------------------------------------------------------------

  /** The nodes of a chain of `n` steps. */
  ghost function Chain(g: Graph, y: Id, n: nat): set<Id>
    requires Up(g, y, n).Some?
  {
    if n == 0 then {y} else Chain(g, y, n - 1) + {Up(g, y, n).value}
  }

  lemma {:induction false} ChainNodes(g: Graph, y: Id, n: nat, x: Id)
    requires Up(g, y, n).Some? && x in Chain(g, y, n)
    ensures exists i: nat :: i <= n && Up(g, y, i) == Some(x)
  {
    if n == 0 {
      assert Up(g, y, 0) == Some(x);
    } else if x in Chain(g, y, n - 1) {
      ChainNodes(g, y, n - 1, x);
      var i: nat :| i <= n - 1 && Up(g, y, i) == Some(x);
    }
  }

  /** In a forest the nodes of a chain are all different. */
  lemma {:induction false} ChainIsDistinct(g: Graph, y: Id, n: nat)
    requires Acyclic(g) && ParentsExist(g) && y in g && Up(g, y, n).Some?
    ensures |Chain(g, y, n)| == n + 1 && Chain(g, y, n) <= g.Keys
  {
    if n > 0 {
      ChainIsDistinct(g, y, n - 1);
      var top := Up(g, y, n).value;
      if top in Chain(g, y, n - 1) {
        ChainNodes(g, y, n - 1, top);
        var i: nat :| i <= n - 1 && Up(g, y, i) == Some(top);
        UpAdds(g, y, i, n - i);
      }
    }
  }

  /** In a forest no chain is longer than the table. */
  lemma ForestIsShallow(g: Graph, x: Id, n: nat)
    requires Acyclic(g) && ParentsExist(g) && Deep(g, x, n)
    ensures n < |g|
  {
    var y :| y in g && Up(g, y, n) == Some(x);
    ChainIsDistinct(g, y, n);
    SubsetIsSmaller(Chain(g, y, n), g.Keys);
  }

  lemma {:induction false} SubsetIsSmaller<T>(s: set<T>, t: set<T>)
    requires s <= t
    ensures |s| <= |t|
  {
    if s != {} {
      var x :| x in s;
      SubsetIsSmaller(s - {x}, t - {x});
    }
  }

  /** A forest never gets stuck: the deletion never removes a row that still has a child. */
  lemma ForestIsNeverStuck(g: Graph)
    requires Acyclic(g) && ParentsExist(g)
    ensures !Stuck(g)
  {
    if n: nat :| n < ROUNDS && StuckAt(g, n) {
      var m := if n < |g| then |g| else n;
      RoundRepeats(g, n, m);
      var x :| x in LeftAfter(g, m);
      LeftIsDeep(g, m);
      assert InWhenDeep(g, m, LeftAfter(g, m), x);
      ForestIsShallow(g, x, m);
    }
  }

  /** A forest is emptied if and only if no chain goes up a thousand steps - surely when it has at most a
      thousand rows. */
  lemma ForestIsEmptiedIff(g: Graph)
    requires Acyclic(g) && ParentsExist(g)
    ensures LeftAfter(g, ROUNDS) == {} <==> forall y | y in g :: Up(g, y, ROUNDS).None?
    ensures |g| <= ROUNDS ==> LeftAfter(g, ROUNDS) == {}
  {
    forall x | x in LeftAfter(g, ROUNDS)
      ensures |g| > ROUNDS && exists y :: y in g && Up(g, y, ROUNDS).Some?
    {
      LeftIsDeep(g, ROUNDS);
      assert InWhenDeep(g, ROUNDS, LeftAfter(g, ROUNDS), x);
      ForestIsShallow(g, x, ROUNDS);
    }
    forall y | y in g && Up(g, y, ROUNDS).Some? ensures LeftAfter(g, ROUNDS) != {} {
      UpStaysInside(g, y, ROUNDS);
      LeftIsDeep(g, ROUNDS);
      assert InWhenDeep(g, ROUNDS, LeftAfter(g, ROUNDS), Up(g, y, ROUNDS).value);
    }
  }

  lemma {:induction false} UpStaysInside(g: Graph, y: Id, n: nat)
    requires ParentsExist(g) && y in g && Up(g, y, n).Some?
    ensures Up(g, y, n).value in g
  {
    if n > 0 { UpStaysInside(g, y, n - 1); }
  }
}
