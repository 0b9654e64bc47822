/**
 The reporting graph: each employee has at most one manager.  The two ways the code asks who is in whose
 subtree, the edit of one manager with its cycle guard, and the links of an upload.
 */
module ReportingGraph {
  import opened Prelude
  import opened HierarchyModel
  import opened HierarchyTheorems
  import opened HierarchyRepeat

  type Id = string

  type Graph = map<Id, Option<Id>>

  /** The manager `n` steps up. */
  function Up(g: Graph, x: Id, n: nat): Option<Id> {
    if n == 0 then Some(x)
    else
      var y := Up(g, x, n - 1);
      if y.Some? && y.value in g then g[y.value] else None
  }

  ghost predicate Reaches(g: Graph, x: Id, y: Id) { exists n: nat :: Up(g, x, n) == Some(y) }

  /** Nobody is their own manager, at any distance. */
  ghost predicate Acyclic(g: Graph) {
    forall x, n: nat | n > 0 :: Up(g, x, n) != Some(x)
  }

  lemma {:induction false} UpAdds(g: Graph, x: Id, a: nat, b: nat)
    ensures Up(g, x, a + b) == (if Up(g, x, a).Some? then Up(g, Up(g, x, a).value, b) else None)
  {
    if b > 0 {
      UpAdds(g, x, a, b - 1);
      assert a + b - 1 == a + (b - 1);
    }
  }

  // ---- The subtree, downward --------------------------------------------------------------------

  method ChildrenOf(g: Graph) returns (children: map<Id, set<Id>>)
    ensures forall p, c :: (p in children && c in children[p]) <==> (c in g && g[c] == Some(p))
  {
    children := map[];
    var rows := g.Keys;
    while rows != {}
      invariant rows <= g.Keys
      invariant forall p, c :: (p in children && c in children[p]) <==>
        (c in g && c !in rows && g[c] == Some(p))
      decreases rows
    {
      var c :| c in rows;
      rows := rows - {c};
      if g[c].Some? {
        var p := g[c].value;
        children := children[p := (if p in children then children[p] else {}) + {c}];
      }
    }
  }

  lemma {:induction false} ClosedDownward(g: Graph, s: set<Id>, root: Id, x: Id, n: nat)
    requires root in s && forall c | c in g && g[c].Some? && g[c].value in s :: c in s
    requires Up(g, x, n) == Some(root)
    ensures x in s
    decreases n
  {
    if n > 0 {
      var y := Up(g, x, n - 1).value;
      assert y in s;
      ClosedDownward(g, s, y, x, n - 1);
    }
  }

  lemma OneUp(g: Graph, x: Id, y: Id, root: Id)
    requires x in g && g[x] == Some(y) && Reaches(g, y, root)
    ensures Reaches(g, x, root)
  {
    var n: nat :| Up(g, y, n) == Some(root);
    assert Up(g, x, 0) == Some(x) && Up(g, x, 1) == Some(y);
    UpAdds(g, x, 1, n);
    assert Up(g, x, 1 + n) == Some(root);
  }

  /** What the walk has found so far: only members of the subtree, and every child of a member whose
      turn has come - the members in the queue and `current` are still to be looked at. */
  ghost predicate Found(g: Graph, root: Id, subtree: set<Id>, queue: seq<Id>, current: Option<Id>) {
    && root in subtree && subtree <= g.Keys + {root}
    && (forall x | x in queue :: x in subtree)
    && (forall x | x in subtree :: Reaches(g, x, root))
    && (forall c | c in g && c !in subtree && g[c].Some? && g[c].value in subtree ::
          g[c].value in queue || g[c] == current)
  }

  /** The children of one member, each queued the first time it is met. */
  method QueueChildren(g: Graph, root: Id, current: Id, children: set<Id>, subtree0: set<Id>, queue0: seq<Id>)
    returns (subtree: set<Id>, queue: seq<Id>)
    requires forall c :: c in children <==> c in g && g[c] == Some(current)
    requires Found(g, root, subtree0, queue0, Some(current)) && current in subtree0
    ensures Found(g, root, subtree, queue, None)
    ensures subtree0 <= subtree && (subtree == subtree0 ==> queue == queue0)
  {
    subtree, queue := subtree0, queue0;
    var rest := children;
    while rest != {}
      invariant rest <= children && current in subtree && subtree0 <= subtree
      invariant Found(g, root, subtree, queue, Some(current))
      invariant children - rest <= subtree
      invariant subtree == subtree0 ==> queue == queue0
      decreases rest
    {
      var child :| child in rest;
      rest := rest - {child};
      if child !in subtree {
        OneUp(g, child, current, root);
        subtree := subtree + {child};
        queue := queue + [child];
      }
    }
  }

  /** Breadth first from the root: exactly those whose chain of managers reaches it. */
  method DescendantSalesUserIds(g: Graph, root: Id) returns (subtree: set<Id>)
    ensures forall x :: x in subtree <==> Reaches(g, x, root)
  {
    var children := ChildrenOf(g);
    subtree := {root};
    var queue := [root];
    assert Up(g, root, 0) == Some(root);
    while queue != []
      invariant Found(g, root, subtree, queue, None)
      decreases g.Keys + {root} - subtree, |queue|
    {
      var current := queue[0];
      assert queue == [current] + queue[1..];
      subtree, queue := QueueChildren(g, root, current, if current in children then children[current] else {},
                                      subtree, queue[1..]);
    }
    forall x | Reaches(g, x, root) ensures x in subtree {
      var n: nat :| Up(g, x, n) == Some(root);
      ClosedDownward(g, subtree, root, x, n);
    }
  }

  // ---- The subtree, upward ------------------------------------------------------------------------

  /** Once the chain comes back to where it was, it only repeats itself. */
  lemma {:induction false} ChainRepeats(g: Graph, x: Id, i: nat, k: nat, n: nat)
    requires i < k && Up(g, x, k) == Up(g, x, i) && Up(g, x, k).Some?
    ensures exists m: nat :: m < k && Up(g, x, n) == Up(g, x, m)
  {
    if n >= k {
      UpAdds(g, x, k, n - k);
      UpAdds(g, x, i, n - k);
      assert Up(g, x, n) == Up(g, x, i + (n - k));
      ChainRepeats(g, x, i, k, i + (n - k));
    }
  }

  lemma {:induction false} NobodyAbove(g: Graph, x: Id, k: nat, n: nat)
    requires Up(g, x, k).None? && n >= k
    ensures Up(g, x, n).None?
  {
    if n > k { NobodyAbove(g, x, k, n - 1); }
  }

  /** The first `k` managers, and the target itself, are not the caller. */
  ghost predicate NotYet(g: Graph, target: Id, caller: Id, k: nat) {
    forall i: nat | i <= k :: Up(g, target, i) != Some(caller)
  }

  ghost predicate VisitedBefore(g: Graph, target: Id, k: nat, x: Id) {
    exists i: nat :: i < k && Up(g, target, i) == Some(x)
  }

  lemma RepetitionNeverMeets(g: Graph, target: Id, caller: Id, k: nat, x: Id)
    requires NotYet(g, target, caller, k) && Up(g, target, k) == Some(x)
    requires VisitedBefore(g, target, k, x)
    ensures !Reaches(g, target, caller)
  {
    var i: nat :| i < k && Up(g, target, i) == Some(x);
    forall n: nat ensures Up(g, target, n) != Some(caller) { ChainRepeats(g, target, i, k, n); }
  }

  lemma TopNeverMeets(g: Graph, target: Id, caller: Id, k: nat)
    requires NotYet(g, target, caller, k) && Up(g, target, k + 1).None?
    ensures !Reaches(g, target, caller)
  {
    forall n: nat ensures Up(g, target, n) != Some(caller) {
      if n > k { NobodyAbove(g, target, k + 1, n); }
    }
  }

  /** Walking up from the target until the caller, the top or a repetition. */
  method IsSelfOrDescendant(g: Graph, target: Id, caller: Id) returns (r: bool)
    requires "" !in g    // ids are never blank
    ensures r <==> target != "" && caller != "" && Reaches(g, target, caller)
  {
    if target == "" || caller == "" { return false; }
    assert Up(g, target, 0) == Some(target);
    if target == caller { return true; }
    if target !in g {
      TopNeverMeets(g, target, caller, 0);
      return false;
    }
    var seen: set<Id> := {};
    var current: Option<Id> := Some(target);
    ghost var k: nat := 0;
    while current.Some? && current.value != ""
      invariant current == Up(g, target, k) && NotYet(g, target, caller, k)
      invariant forall x | x in seen :: VisitedBefore(g, target, k, x)
      invariant seen <= g.Keys || current.None?
      decreases g.Keys - seen, current.Some?
    {
      var x := current.value;
      if x in seen {
        RepetitionNeverMeets(g, target, caller, k, x);
        return false;
      }
      var parent := if x in g then g[x] else None;
      assert parent == Up(g, target, k + 1);
      if parent == Some(caller) { return true; }
      assert VisitedBefore(g, target, k + 1, x);
      forall y | y in seen ensures VisitedBefore(g, target, k + 1, y) {
        var i: nat :| i < k && Up(g, target, i) == Some(y);
      }
      seen := seen + {x};
      current := parent;
      k := k + 1;
    }
    TopNeverMeets(g, target, caller, k);
    return false;
  }

  // ---- Changing one manager -----------------------------------------------------------------------

  /** Two graphs that differ only at `e` agree along a chain until it comes to `e`. */
  lemma {:induction false} SameUntil(g: Graph, h: Graph, e: Id, x: Id, n: nat)
    requires forall y | y != e :: (y in g <==> y in h) && (y in g ==> g[y] == h[y])
    requires forall i: nat | i < n :: Up(g, x, i) != Some(e)
    ensures forall i: nat | i <= n :: Up(h, x, i) == Up(g, x, i)
  {
    if n > 0 { SameUntil(g, h, e, x, n - 1); }
  }

  lemma {:induction false} FirstVisit(g: Graph, x: Id, e: Id, n: nat) returns (k: nat)
    requires Up(g, x, n) == Some(e)
    ensures k <= n && Up(g, x, k) == Some(e) && forall i: nat | i < k :: Up(g, x, i) != Some(e)
  {
    if i: nat :| i < n && Up(g, x, i) == Some(e) { k := FirstVisit(g, x, e, i); } else { k := n; }
  }

  /** A cycle through one node is a cycle from each of its nodes. */
  lemma CycleFrom(g: Graph, x: Id, n: nat, i: nat, e: Id)
    requires Up(g, x, n) == Some(x) && Up(g, x, i) == Some(e)
    ensures Up(g, e, n) == Some(e)
  {
    UpAdds(g, x, n, i);
    UpAdds(g, x, i, n);
    assert n + i == i + n;
  }

  /** The guard of an edit is exact: a new manager closes a cycle if and only if it is in the employee's
      own subtree. */
  lemma EditKeepsAcyclicIff(g: Graph, e: Id, manager: Option<Id>)
    requires Acyclic(g) && e in g
    ensures Acyclic(g[e := manager]) <==> manager.None? || !Reaches(g, manager.value, e)
  {
    var h := g[e := manager];
    if manager.Some? && Reaches(g, manager.value, e) {
      var n: nat :| Up(g, manager.value, n) == Some(e);
      var k := FirstVisit(g, manager.value, e, n);
      SameUntil(g, h, e, manager.value, k);
      assert Up(h, e, 0) == Some(e) && Up(h, e, 1) == manager;
      UpAdds(h, e, 1, k);
      assert Up(h, e, 1 + k) == Some(e);
    } else {
      forall x, n: nat | n > 0 ensures Up(h, x, n) != Some(x) {
        if Up(h, x, n) == Some(x) { NewCycleUsesEdit(g, e, manager, x, n); }
      }
    }
  }

  lemma NewCycleUsesEdit(g: Graph, e: Id, manager: Option<Id>, x: Id, n: nat)
    requires Acyclic(g) && e in g && n > 0 && Up(g[e := manager], x, n) == Some(x)
    ensures manager.Some? && Reaches(g, manager.value, e)
  {
    var h := g[e := manager];
    if i: nat :| i < n && Up(h, x, i) == Some(e) {
      CycleFrom(h, x, n, i, e);
      assert Up(h, e, 0) == Some(e) && Up(h, e, 1) == manager;
      UpAdds(h, e, 1, n - 1);
      var k := FirstVisit(h, manager.value, e, n - 1);
      SameUntil(h, g, e, manager.value, k);
      assert Up(g, manager.value, k) == Some(e);
    } else {
      SameUntil(h, g, e, x, n);
    }
  }

  /** Two edits that are both checked before either is written can close a cycle that each guard, on its
      own, would have refused: exactly when each new manager is under the other employee. */
  lemma RacingEdits(g: Graph, a: Id, p: Id, b: Id, q: Id)
    requires Acyclic(g) && a in g && b in g && a != b
    requires !Reaches(g, p, a) && !Reaches(g, q, b)
    ensures !Acyclic(g[a := Some(p)][b := Some(q)]) <==> Reaches(g, q, a) && Reaches(g, p, b)
  {
    EditKeepsAcyclicIff(g, a, Some(p));
    var h := g[a := Some(p)];
    EditKeepsAcyclicIff(h, b, Some(q));
    if Reaches(h, q, b) {
      var n: nat :| Up(h, q, n) == Some(b);
      if i: nat :| i < n && Up(h, q, i) == Some(a) {
        var j := FirstVisit(h, q, a, i);
        SameUntil(h, g, a, q, j);
        assert Up(g, q, j) == Some(a);
        UpAdds(h, q, i, n - i);
        assert Up(h, a, 0) == Some(a) && Up(h, a, 1) == Some(p);
        UpAdds(h, a, 1, n - i - 1);
        EditLeavesManagersChain(g, a, p, n - i - 1);
        assert Up(g, p, n - i - 1) == Some(b);
      } else {
        SameUntil(h, g, a, q, n);
      }
    }
    if Reaches(g, q, a) && Reaches(g, p, b) {
      var i: nat :| Up(g, q, i) == Some(a);
      var j := FirstVisit(g, q, a, i);
      SameUntil(g, h, a, q, j);
      var m: nat :| Up(g, p, m) == Some(b);
      EditLeavesManagersChain(g, a, p, m);
      assert Up(h, a, 0) == Some(a) && Up(h, a, 1) == Some(p);
      UpAdds(h, a, 1, m);
      UpAdds(h, q, j, 1 + m);
      assert Up(h, q, j + (1 + m)) == Some(b);
    }
  }

  /** Two employees at the top, each set to report to the other at the same time: both guards pass. */
  lemma TwoEditsCloseACycle(a: Id, b: Id)
    requires a != b
    ensures var g: Graph := map[a := None, b := None];
      && Acyclic(g) && !Reaches(g, b, a) && !Reaches(g, a, b)
      && !Acyclic(g[a := Some(b)][b := Some(a)])
  {
    var g: Graph := map[a := None, b := None];
    forall x, n: nat | n > 0 ensures Up(g, x, n) == None {
      assert Up(g, x, 0) == Some(x) && Up(g, x, 1) == None;
      NobodyAbove(g, x, 1, n);
    }
    assert Up(g, a, 0) == Some(a) && Up(g, b, 0) == Some(b);
    RacingEdits(g, a, b, b, a);
  }

  /** The chain of a manager outside the employee's subtree never meets the edited row. */
  lemma EditLeavesManagersChain(g: Graph, a: Id, p: Id, n: nat)
    requires a in g && !Reaches(g, p, a)
    ensures Up(g[a := Some(p)], p, n) == Up(g, p, n)
  {
    forall i: nat ensures Up(g, p, i) != Some(a) {}
    SameUntil(g, g[a := Some(p)], a, p, n);
  }

  class ReportingTable {
    var managers: Graph
    var active: set<Id>

    /** Sets or clears one employee's manager, behind the cycle guard. */
    method SetManager(e: Id, manager: Option<Id>) returns (ok: bool)
      requires e in managers && active <= managers.Keys
      modifies this`managers
      ensures ok <==> manager.None? || (manager.value in active && !Reaches(old(managers), manager.value, e))
      ensures managers == if ok then old(managers)[e := manager] else old(managers)
      ensures Acyclic(old(managers)) ==> Acyclic(managers)
    {
      if manager.Some? {
        if manager.value == e {
          assert Up(managers, e, 0) == Some(e);
          return false;
        }
        if manager.value !in active { return false; }
        var subtree := DescendantSalesUserIds(managers, e);
        if manager.value in subtree { return false; }
      }
      if Acyclic(managers) { EditKeepsAcyclicIff(managers, e, manager); }
      managers := managers[e := manager];
      return true;
    }
  }

  // ---- The links of an upload -----------------------------------------------------------------------

  /** Everybody the links mention has a row in them. */
  ghost predicate ClosedLinks(links: Graph) {
    forall x | x in links && links[x].Some? :: links[x].value in links
  }

  lemma {:induction false} LinksStayInside(g: Graph, links: Graph, x: Id, n: nat)
    requires ClosedLinks(links) && x in links
    ensures Up(g + links, x, n) == Up(links, x, n)
    ensures Up(links, x, n).Some? ==> Up(links, x, n).value in links
  {
    if n > 0 { LinksStayInside(g, links, x, n - 1); }
  }

  /** A chain that ends outside the links has never been in them. */
  lemma {:induction false} OutsideIsOld(g: Graph, links: Graph, x: Id, n: nat)
    requires ClosedLinks(links) && Up(g + links, x, n).Some? && Up(g + links, x, n).value !in links
    ensures Up(g, x, n) == Up(g + links, x, n)
  {
    if n > 0 {
      var y := Up(g + links, x, n - 1).value;
      OutsideIsOld(g, links, x, n - 1);
    }
  }

  /** Overlaying an upload's links on an acyclic graph keeps it acyclic if and only if the links
      themselves are: uploaded employees point only at uploaded employees. */
  lemma OverlayKeepsAcyclicIff(g: Graph, links: Graph)
    requires Acyclic(g) && ClosedLinks(links)
    ensures Acyclic(g + links) <==> Acyclic(links)
  {
    forall x, n: nat | n > 0 ensures Up(g + links, x, n) == Some(x) <==> Up(links, x, n) == Some(x) {
      if x in links {
        LinksStayInside(g, links, x, n);
      } else {
        assert Up(links, x, 0) == Some(x) && Up(links, x, 1) == None;
        NobodyAbove(links, x, 1, n);
        if Up(g + links, x, n) == Some(x) { OutsideIsOld(g, links, x, n); }
      }
    }
  }

  /** The reporting column of the sales table. */
  function Managers(sales: map<EmpCode, SalesUser>): Graph {
    map c | c in sales :: sales[c].reportsTo
  }

  /** What the file says about the employees it places. */
  ghost function FileLinks(emps: seq<Employee>, roles: map<string, Code>): Graph
    requires DistinctIds(emps)
  {
    map i | 0 <= i < |emps| && RoleOf(emps[i]) in roles :: emps[i].id := LinkOf(emps, roles, emps[i])
  }

  lemma FileLinksAreClosed(emps: seq<Employee>, roles: map<string, Code>)
    requires DistinctIds(emps)
    ensures ClosedLinks(FileLinks(emps, roles))
    ensures forall c :: c in FileLinks(emps, roles) <==> Placed(emps, roles, c)
  {
  }

  /** Whom an employee reports to after an upload: as the file says, or as before. */
  lemma UploadSetsManager(t: Staff, roles: map<string, Code>, emps: seq<Employee>, c: EmpCode)
    requires Indexed(t) && DistinctIds(emps) && StaffAfter(t, roles, emps).Ok?
    ensures var after, links := StaffAfter(t, roles, emps).value.sales, FileLinks(emps, roles);
      && (c in after <==> c in t.sales || c in links)
      && (c in after ==> after[c].reportsTo == if c in links then links[c] else t.sales[c].reportsTo)
  {
    var put := PutEmployees(t, roles, emps).value;
    UploadShowsItsEmployees(t, roles, emps);
    LinksAreTheFiles(put.sales, emps, roles, |emps|);
    assert emps[..|emps|] == emps;
    FileLinksAreClosed(emps, roles);
    if Placed(emps, roles, c) {
      var i :| 0 <= i < |emps| && emps[i].id == c && RoleOf(emps[i]) in roles;
      assert Shows(put, roles, emps[i]);
    } else {
      assert SameRows(t, put, c);
    }
  }

  /** The reporting graph after an upload: the old one, overlaid with what the file says. */
  lemma UploadOverlaysLinks(t: Staff, roles: map<string, Code>, emps: seq<Employee>)
    requires Indexed(t) && DistinctIds(emps) && StaffAfter(t, roles, emps).Ok?
    ensures Managers(StaffAfter(t, roles, emps).value.sales) ==
      Managers(t.sales) + FileLinks(emps, roles)
  {
    forall c { UploadSetsManager(t, roles, emps, c); }
  }

  /** An upload keeps the reporting graph acyclic if and only if its own links are. */
  lemma UploadKeepsAcyclicIff(t: Tables, config: seq<LevelRow>, emps: seq<Employee>)
    requires Valid(t) && Persist(t, config, emps).Ok? && DistinctIds(emps)
    requires Acyclic(Managers(t.staff.sales))
    ensures Acyclic(Managers(Persist(t, config, emps).value.staff.sales)) <==>
      Acyclic(FileLinks(emps, Roles(config)))
  {
    var roles := Roles(config);
    UploadOverlaysLinks(t.staff, roles, emps);
    FileLinksAreClosed(emps, roles);
    OverlayKeepsAcyclicIff(Managers(t.staff.sales), FileLinks(emps, roles));
    assert Persist(t, config, emps).value.staff == StaffAfter(t.staff, roles, emps).value;
  }
}
