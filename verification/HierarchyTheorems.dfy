/**
 What an employee-hierarchy upload does to the tables: when its writes can meet a unique index, what a
 successful upload leaves behind, and when it can be repeated.
 */
module HierarchyTheorems {
  import opened Prelude
  import opened HierarchyModel

  // ---- What a successful upload leaves ------------------------------------------------------------

  /** The tables show employee `e` as uploaded. */
  predicate Shows(t: Staff, roles: map<string, Code>, e: Employee) {
    RoleOf(e) in roles ==>
      && e.id in t.sales && t.sales[e.id].userId < |t.users|
      && t.users[t.sales[e.id].userId] == UserRow(e)
      && t.sales[e.id].level == roles[RoleOf(e)] && t.sales[e.id].active == !IsPlaceholder(e)
      && !t.sales[e.id].deleted
  }

  /** Employee `c` has the same rows in both. */
  predicate SameRows(t: Staff, t': Staff, c: EmpCode) {
    && (c in t.sales <==> c in t'.sales)
    && (c in t.sales ==>
          && t'.sales[c] == t.sales[c] && t.sales[c].userId < |t.users| <= |t'.users|
          && t'.users[t.sales[c].userId] == t.users[t.sales[c].userId])
  }

  /** A step that succeeds shows its employee and touches nobody else. */
  lemma OneEmployee(t: Staff, roles: map<string, Code>, e: Employee)
    requires Indexed(t) && PutEmployee(t, roles, e).Ok?
    ensures var t' := PutEmployee(t, roles, e).value;
      && Shows(t', roles, e) && |t.users| <= |t'.users|
      && (forall c | c != e.id || RoleOf(e) !in roles :: SameRows(t, t', c))
      && (e.id in t.sales && e.id in t'.sales ==> t'.sales[e.id].reportsTo == t.sales[e.id].reportsTo)
  {
    if RoleOf(e) in roles {
      var u := PutUser(t, e).value.1;
      forall c | c in t.sales && c != e.id ensures t.sales[c].userId != u {
        assert !Owns(t.sales, c, u);
      }
    }
  }

  ghost predicate DistinctIds(emps: seq<Employee>) {
    forall i, j | 0 <= i < j < |emps| :: emps[i].id != emps[j].id
  }

  lemma IdsAreDistinct(emps: seq<Employee>)
    requires IdsOk(emps)
    ensures DistinctIds(emps)
  {
  }

  lemma SameRowsShow(t: Staff, t': Staff, roles: map<string, Code>, e: Employee)
    requires Shows(t, roles, e) && SameRows(t, t', e.id)
    ensures Shows(t', roles, e)
  {
  }

  /** Every upload that gets through shows each of its employees, and leaves everybody else alone. */
  lemma {:induction false} UploadShowsItsEmployees(t: Staff, roles: map<string, Code>,
                                                   emps: seq<Employee>)
    requires Indexed(t) && DistinctIds(emps) && PutEmployees(t, roles, emps).Ok?
    ensures var t' := PutEmployees(t, roles, emps).value;
      && (forall i | 0 <= i < |emps| :: Shows(t', roles, emps[i]))
      && (forall c | !Placed(emps, roles, c) :: SameRows(t, t', c))
  {
    if emps == [] {
      forall c ensures SameRows(t, t, c) {}
    } else {
      var before := emps[..|emps| - 1];
      var e := emps[|emps| - 1];
      var t1 := PutEmployees(t, roles, before).value;
      var t' := PutEmployees(t, roles, emps).value;
      UploadShowsItsEmployees(t, roles, before);
      OneEmployee(t1, roles, e);
      forall i | 0 <= i < |emps| ensures Shows(t', roles, emps[i]) {
        if i < |before| {
          assert before[i] == emps[i];
          SameRowsShow(t1, t', roles, emps[i]);
        }
      }
      forall c | !Placed(emps, roles, c) ensures SameRows(t, t', c) {
        assert emps[|emps| - 1] == e;
        forall i | 0 <= i < |before| ensures !(before[i].id == c && RoleOf(before[i]) in roles) {
          assert before[i] == emps[i];
        }
        assert !Placed(before, roles, c);
        assert SameRows(t, t1, c) && SameRows(t1, t', c);
      }
    }
  }

  // ---- When no unique index is hit ----------------------------------------------------------------

  predicate VacantForm(phone: string) { |phone| >= |VACANT| && phone[..|VACANT|] == VACANT }

  lemma VacantIsOneToOne(c: EmpCode)
    ensures VacantForm(Vacant(c)) && Vacant(c)[|VACANT|..] == c
  {
  }

  /** The stand-in phone of a code is in use only by that code's own user. */
  ghost predicate VacantOwned(t: Staff) {
    forall u: UserId | u < |t.users| && t.users[u].active && VacantForm(t.users[u].phone) ::
      Owns(t.sales, t.users[u].phone[|VACANT|..], u)
  }

  predicate Active(e: Employee) { !IsPlaceholder(e) }

  predicate InConfig(emps: seq<Employee>, roles: map<string, Code>, i: int) {
    0 <= i < |emps| && RoleOf(emps[i]) in roles
  }

  /** An id with blanks around it, and a phone an ACTIVE user of the trimmed id may have. */
  predicate Misread(e: Employee) {
    Trim(e.id) != e.id && RealPhone(e) != "" &&
    (VacantForm(RealPhone(e)) ==> RealPhone(e) == Vacant(Trim(e.id)))
  }

  predicate Collides(emps: seq<Employee>, roles: map<string, Code>, i: int, j: int) {
    InConfig(emps, roles, i) && InConfig(emps, roles, j) && i < j && Active(emps[i]) &&
    PhoneOf(emps[i]) == PhoneOf(emps[j])
  }

  /** What a caller can check in the file: no misread id, and no phone - real or stand-in - of an
      ACTIVE employee that comes again further down. */
  ghost predicate Safe(emps: seq<Employee>, roles: map<string, Code>) {
    && (forall i | InConfig(emps, roles, i) :: !Misread(emps[i]))
    && (forall i, j :: !Collides(emps, roles, i, j))
  }

  /** Whoever has the employee's phone, real or stand-in, is the employee. */
  ghost predicate PhoneFree(t: Staff, e: Employee) {
    forall u: UserId | u < |t.users| && t.users[u].active && t.users[u].phone == PhoneOf(e) ::
      Owns(t.sales, e.id, u)
  }

  /** A user with the phone, whose employee has the trimmed id, means that the id is misread. */
  lemma OnlyMisread(t: Staff, e: Employee, u: UserId)
    requires UsersOwnedOnce(t) && VacantOwned(t) && u < |t.users| && t.users[u].active
    requires RealPhone(e) != "" && t.users[u].phone == RealPhone(e)
    requires Trim(e.id) != e.id && Owns(t.sales, Trim(e.id), u)
    ensures Misread(e)
  {
    if VacantForm(RealPhone(e)) {
      var c := t.users[u].phone[|VACANT|..];
      assert Owns(t.sales, c, u) && RealPhone(e) == VACANT + c;
    }
  }

  lemma FreeAtFirst(t: Staff, e: Employee)
    requires UsersOwnedOnce(t) && VacantOwned(t) && !Misread(e)
    requires forall u: UserId | RealPhone(e) != "" && u < |t.users| && t.users[u].active &&
      t.users[u].phone == RealPhone(e) :: Owns(t.sales, Trim(e.id), u)
    ensures PhoneFree(t, e)
  {
    VacantIsOneToOne(e.id);
    forall u: UserId | u < |t.users| && t.users[u].active && t.users[u].phone == PhoneOf(e)
      ensures Owns(t.sales, e.id, u)
    {
      if RealPhone(e) != "" && Trim(e.id) != e.id { OnlyMisread(t, e, u); }
    }
  }

  /** An employee whose phone is free is written without meeting an index, and never by reclaiming
      somebody's user. */
  lemma FreeGoesThrough(t: Staff, roles: map<string, Code>, e: Employee)
    requires Indexed(t) && PhoneFree(t, e)
    ensures PutEmployee(t, roles, e).Ok?
    ensures e.id !in t.sales ==> Holder(t.users, PhoneOf(e)).None?
  {
    if e.id in t.sales {
      var u := t.sales[e.id].userId;
      forall i | 0 <= i < |t.users| && i != u && t.users[i].active
        ensures t.users[i].phone != PhoneOf(e)
      {
        assert !Owns(t.sales, e.id, i);
      }
      assert forall c | c in t.sales && c != e.id :: !Owns(t.sales, c, u);
    } else {
      assert forall i: nat | i < |t.users| :: !Owns(t.sales, e.id, i);
      assert forall c | c in t.sales :: !Owns(t.sales, c, |t.users|);
    }
  }

  /** Writing one employee leaves another's phone free, unless it is an ACTIVE employee with it. */
  lemma FreeStaysFree(t: Staff, roles: map<string, Code>, e: Employee, f: Employee)
    requires Indexed(t) && PhoneFree(t, e) && PhoneFree(t, f) && e.id != f.id
    requires RoleOf(e) in roles && Active(e) ==> PhoneOf(e) != PhoneOf(f)
    ensures PutEmployee(t, roles, e).Ok? && PhoneFree(PutEmployee(t, roles, e).value, f)
  {
    FreeGoesThrough(t, roles, e);
    OneEmployee(t, roles, e);
    var t' := PutEmployee(t, roles, e).value;
    assert SameRows(t, t', f.id);
    forall u: UserId | u < |t'.users| && t'.users[u].active && t'.users[u].phone == PhoneOf(f)
      ensures Owns(t'.sales, f.id, u)
    {
      assert u < |t.users| && t'.users[u] == t.users[u];
    }
  }

  /** Staff tables as the database and earlier uploads keep them, for which the checks let the upload
      through. */
  ghost predicate Admits(t: Staff, emps: seq<Employee>) {
    Indexed(t) && VacantOwned(t) && PhonesFree(t, emps)
  }

  lemma AdmittedIsFree(t: Staff, emps: seq<Employee>, i: int)
    requires Admits(t, emps) && 0 <= i < |emps| && !Misread(emps[i])
    ensures PhoneFree(t, emps[i])
  {
    FreeAtFirst(t, emps[i]);
  }

  lemma {:induction false} SafePrefix(t: Staff, roles: map<string, Code>, emps: seq<Employee>, n: nat)
    requires Admits(t, emps) && IdsOk(emps) && Safe(emps, roles) && n <= |emps|
    ensures PutEmployees(t, roles, emps[..n]).Ok?
    ensures forall i | n <= i < |emps| && InConfig(emps, roles, i) ::
      PhoneFree(PutEmployees(t, roles, emps[..n]).value, emps[i])
  {
    if n == 0 {
      forall i | InConfig(emps, roles, i) ensures PhoneFree(t, emps[i]) { AdmittedIsFree(t, emps, i); }
    } else {
      SafePrefix(t, roles, emps, n - 1);
      var t1 := PutEmployees(t, roles, emps[..n - 1]).value;
      var e := emps[n - 1];
      OneMore(t, roles, emps, n - 1);
      if RoleOf(e) in roles {
        assert InConfig(emps, roles, n - 1);
        FreeGoesThrough(t1, roles, e);
        forall i | n <= i < |emps| && InConfig(emps, roles, i)
          ensures PhoneFree(PutEmployee(t1, roles, e).value, emps[i])
        {
          assert !Collides(emps, roles, n - 1, i);
          IdsAreDistinct(emps);
          FreeStaysFree(t1, roles, e, emps[i]);
        }
      }
    }
  }

  // ---- When one is hit ------------------------------------------------------------------------------

  lemma TrimTwice(s: string)
    ensures Trim(Trim(s)) == Trim(s)
  {
    TrimStartStops(s);
    TrimEndStops(TrimStart(s));
  }

  /** The trimmed id has a user with the phone of `e`; the id as written has none. */
  ghost predicate Trap(t: Staff, e: Employee) {
    |t.users| > 0 && t.users[0].active && t.users[0].phone == RealPhone(e) &&
    Owns(t.sales, Trim(e.id), 0) && e.id !in t.sales
  }

  lemma TrapCloses(t: Staff, roles: map<string, Code>, e: Employee)
    requires Indexed(t) && Trap(t, e) && Misread(e) && RoleOf(e) in roles
    ensures PutEmployee(t, roles, e).Err?
  {
    assert Holder(t.users, PhoneOf(e)) == Some(0);
    assert UserTaken(t.sales, 0, e.id);
  }

  lemma {:induction false} TrapStays(t: Staff, roles: map<string, Code>, emps: seq<Employee>, i: nat,
                                     n: nat)
    requires Indexed(t) && IdsOk(emps) && n <= i < |emps| && Trap(t, emps[i])
    requires PutEmployees(t, roles, emps[..n]).Ok?
    ensures Trap(PutEmployees(t, roles, emps[..n]).value, emps[i])
  {
    if n > 0 {
      assert emps[..n][..n - 1] == emps[..n - 1];
      TrapStays(t, roles, emps, i, n - 1);
      OneMore(t, roles, emps, n - 1);
      var t1 := PutEmployees(t, roles, emps[..n - 1]).value;
      OneEmployee(t1, roles, emps[n - 1]);
      TrimTwice(emps[i].id);
      assert emps[n - 1].id != Trim(emps[i].id) && emps[n - 1].id != emps[i].id;
      assert SameRows(t1, PutEmployees(t, roles, emps[..n]).value, Trim(emps[i].id));
      assert SameRows(t1, PutEmployees(t, roles, emps[..n]).value, emps[i].id);
    }
  }

  function TrapFor(e: Employee): Staff {
    Staff([User(RealPhone(e), "", "", true)], map[Trim(e.id) := SalesUser(0, "", true, false, None)])
  }

  /** An id with blanks, for an employee whose trimmed id is already known with that phone, makes the
      upload reclaim that employee's user and hit the unique index on it. */
  lemma MisreadFails(roles: map<string, Code>, emps: seq<Employee>, i: int)
    requires IdsOk(emps) && PhonesOk(emps) && InConfig(emps, roles, i) && Misread(emps[i])
    ensures Admits(TrapFor(emps[i]), emps) && PutEmployees(TrapFor(emps[i]), roles, emps).Err?
  {
    var t := TrapFor(emps[i]);
    VacantIsOneToOne(Trim(emps[i].id));
    assert PhonesFree(t, emps);
    if PutEmployees(t, roles, emps[..i]).Err? {
      FailedEmployeesStay(t, roles, emps, i);
    } else {
      TrapStays(t, roles, emps, i, i);
      TrapCloses(PutEmployees(t, roles, emps[..i]).value, roles, emps[i]);
      OneMore(t, roles, emps, i);
      FailedEmployeesStay(t, roles, emps, i + 1);
    }
  }

  const NOBODY := Staff([], map[])

  /** An ACTIVE employee whose phone comes again further down fails the upload, from empty tables. */
  lemma CollisionFails(roles: map<string, Code>, emps: seq<Employee>, i: int, j: int)
    requires IdsOk(emps) && Collides(emps, roles, i, j)
    ensures Admits(NOBODY, emps) && PutEmployees(NOBODY, roles, emps).Err?
  {
    var before := emps[..j];
    if PutEmployees(NOBODY, roles, before).Err? {
      FailedEmployeesStay(NOBODY, roles, emps, j);
    } else {
      var t := PutEmployees(NOBODY, roles, before).value;
      UploadShowsItsEmployees(NOBODY, roles, before);
      assert before[i] == emps[i] && Shows(t, roles, before[i]);
      forall k | 0 <= k < |before| ensures before[k].id != emps[j].id { assert before[k] == emps[k]; }
      assert SameRows(NOBODY, t, emps[j].id);
      SecondHolderFails(t, roles, emps[i], emps[j]);
      OneMore(NOBODY, roles, emps, j);
      FailedEmployeesStay(NOBODY, roles, emps, j + 1);
    }
  }

  lemma SecondHolderFails(t: Staff, roles: map<string, Code>, e: Employee, f: Employee)
    requires Indexed(t) && RoleOf(e) in roles && RoleOf(f) in roles && Shows(t, roles, e) && Active(e)
    requires f.id !in t.sales && PhoneOf(e) == PhoneOf(f)
    ensures PutEmployee(t, roles, f).Err?
  {
    var u := t.sales[e.id].userId;
    assert t.users[u].active && t.users[u].phone == PhoneOf(f);
    var holder := Holder(t.users, PhoneOf(f));
    assert holder == Some(u);
    assert Owns(t.sales, e.id, u);
  }

  /** For a file that passes its own checks: no unique index can be hit, whatever the tables that admit
      it, if and only if the file is safe. */
  lemma NoIndexHitIffSafe(roles: map<string, Code>, emps: seq<Employee>)
    requires IdsOk(emps) && PhonesOk(emps)
    ensures Safe(emps, roles) <==>
      forall t | Admits(t, emps) :: PutEmployees(t, roles, emps).Ok?
  {
    if Safe(emps, roles) {
      forall t | Admits(t, emps) ensures PutEmployees(t, roles, emps).Ok? {
        SafePrefix(t, roles, emps, |emps|);
        assert emps[..|emps|] == emps;
      }
    } else if i :| InConfig(emps, roles, i) && Misread(emps[i]) {
      MisreadFails(roles, emps, i);
    } else {
      var i, j :| Collides(emps, roles, i, j);
      CollisionFails(roles, emps, i, j);
    }
  }

  // ---- The whole upload -------------------------------------------------------------------------------

  /** Levels of the config: one row per code and per level, from 0 up to the shift. */
  ghost predicate ConfigOk(config: seq<LevelRow>) {
    && (forall i | 0 <= i < |config| :: 0 <= config[i].level < SHIFT)
    && (forall i, j | 0 <= i < j < |config| ::
          config[i].code != config[j].code && config[i].level != config[j].level)
  }

  /** The rows the config stands for. */
  function ConfigLevels(config: seq<LevelRow>): map<Code, Level> {
    if config == [] then map[]
    else
      var row := config[|config| - 1];
      ConfigLevels(config[..|config| - 1])[row.code := Level(row.name, row.level)]
  }

  lemma {:induction false} ConfigLevelsFrom(config: seq<LevelRow>, c: Code)
    requires c in ConfigLevels(config)
    ensures exists i | 0 <= i < |config| ::
      config[i].code == c && ConfigLevels(config)[c].level == config[i].level
  {
    var n := |config| - 1;
    if c != config[n].code {
      ConfigLevelsFrom(config[..n], c);
      var i :| 0 <= i < n && config[..n][i].code == c && ConfigLevels(config)[c].level == config[..n][i].level;
      assert config[i].code == c;
    } else {
      assert config[n].code == c;
    }
  }

  lemma ConfigLevelsDiffer(config: seq<LevelRow>)
    requires ConfigOk(config)
    ensures LevelsUnique(ConfigLevels(config))
    ensures forall c | c in ConfigLevels(config) :: 0 <= ConfigLevels(config)[c].level < SHIFT
  {
    forall c | c in ConfigLevels(config) ensures 0 <= ConfigLevels(config)[c].level < SHIFT {
      ConfigLevelsFrom(config, c);
    }
    forall c, d | c in ConfigLevels(config) && d in ConfigLevels(config) && c != d
      ensures ConfigLevels(config)[c].level != ConfigLevels(config)[d].level
    {
      ConfigLevelsFrom(config, c);
      ConfigLevelsFrom(config, d);
    }
  }

  /** Onto a table where every level is parked below 0, the config always fits. */
  lemma {:induction false} ConfigFits(parked: map<Code, Level>, config: seq<LevelRow>)
    requires ConfigOk(config) && forall c | c in parked :: parked[c].level < 0
    ensures PutLevels(parked, config) == Ok(parked + ConfigLevels(config))
  {
    if config != [] {
      var n := |config| - 1;
      ConfigFits(parked, config[..n]);
      var before := parked + ConfigLevels(config[..n]);
      forall c | c in before && c != config[n].code ensures before[c].level != config[n].level {
        if c in ConfigLevels(config[..n]) { ConfigLevelsFrom(config[..n], c); }
      }
      assert before[config[n].code := Level(config[n].name, config[n].level)] ==
        parked + ConfigLevels(config);
    } else {
      assert parked + map[] == parked;
    }
  }

  lemma ShiftParks(levels: map<Code, Level>)
    requires LevelsBelow(levels)
    ensures forall c | c in Shifted(levels) :: Shifted(levels)[c].level < 0
  {
  }

  /** The level table after an upload: the config's rows, and every other row parked. */
  function Arranged(levels: map<Code, Level>, config: seq<LevelRow>): map<Code, Level> {
    Shifted(levels) + ConfigLevels(config)
  }

  lemma ArrangedIsValid(levels: map<Code, Level>, config: seq<LevelRow>)
    requires ConfigOk(config) && LevelsUnique(levels) && LevelsBelow(levels) && ShiftFits(levels)
    ensures LevelsUnique(Arranged(levels, config)) && LevelsBelow(Arranged(levels, config))
  {
    ShiftParks(levels);
    ConfigLevelsDiffer(config);
    forall c, d | c in levels && d in levels && c != d
      ensures Shifted(levels)[c].level != Shifted(levels)[d].level
    {
      assert !LandsOn(levels, c, d) && !LandsOn(levels, d, c);
    }
  }

  /** A safe upload that passes the checks gets through if and only if no parked level is in the way of
      the shift. */
  lemma UploadGoesThroughIff(t: Tables, config: seq<LevelRow>, emps: seq<Employee>)
    requires Valid(t) && ConfigOk(config) && VacantOwned(t.staff) && ChecksPass(t.staff, emps)
    requires Safe(emps, Roles(config))
    ensures Persist(t, config, emps).Ok? <==> ShiftFits(t.levels)
    ensures ShiftFits(t.levels) ==> Persist(t, config, emps).value.levels == Arranged(t.levels, config)
  {
    ShiftParks(t.levels);
    ConfigFits(Shifted(t.levels), config);
    NoIndexHitIffSafe(Roles(config), emps);
    assert Admits(t.staff, emps);
  }

  // ---- The reporting links ------------------------------------------------------------------------

  lemma NotPlacedBefore(emps: seq<Employee>, roles: map<string, Code>, n: nat, c: EmpCode)
    requires DistinctIds(emps) && n < |emps|
    requires !Placed(emps[..n + 1], roles, c) || (RoleOf(emps[n]) in roles && c == emps[n].id)
    ensures !Placed(emps[..n], roles, c)
  {
    forall i | 0 <= i < n ensures !(emps[..n][i].id == c && RoleOf(emps[..n][i]) in roles) {
      assert emps[..n + 1][i] == emps[i];
    }
  }

  /** Linking sets one column of the uploaded rows: each reports to whom the file says. */
  lemma {:induction false} LinksAreTheFiles(sales: map<EmpCode, SalesUser>, emps: seq<Employee>,
                                            roles: map<string, Code>, n: nat)
    requires DistinctIds(emps) && n <= |emps|
    ensures var linked := LinkFirst(sales, emps, roles, n);
      && linked.Keys == sales.Keys
      && (forall i | 0 <= i < n && RoleOf(emps[i]) in roles && emps[i].id in sales ::
            linked[emps[i].id] == sales[emps[i].id].(reportsTo := LinkOf(emps, roles, emps[i])))
      && (forall c | c in sales && !Placed(emps[..n], roles, c) :: linked[c] == sales[c])
  {
    if n > 0 {
      LinksAreTheFiles(sales, emps, roles, n - 1);
      var before, linked := LinkFirst(sales, emps, roles, n - 1), LinkFirst(sales, emps, roles, n);
      var e := emps[n - 1];
      if RoleOf(e) in roles && e.id in sales {
        NotPlacedBefore(emps, roles, n - 1, e.id);
        assert linked[e.id] == sales[e.id].(reportsTo := LinkOf(emps, roles, e));
      }
      forall c | c in sales && !Placed(emps[..n], roles, c) ensures linked[c] == sales[c] {
        NotPlacedBefore(emps, roles, n - 1, c);
        assert emps[..n][n - 1] == e;
      }
    }
  }

  lemma LinkingKeepsShape(t: Staff, emps: seq<Employee>, roles: map<string, Code>)
    requires DistinctIds(emps) && Indexed(t)
    ensures var t' := Staff(t.users, LinkFirst(t.sales, emps, roles, |emps|));
      && Indexed(t')
      && (forall c, u :: Owns(t'.sales, c, u) <==> Owns(t.sales, c, u))
      && (forall e | Shows(t, roles, e) :: Shows(t', roles, e))
      && (forall c | c in t.sales && !Placed(emps, roles, c) :: SameRows(t, t', c))
  {
    LinksAreTheFiles(t.sales, emps, roles, |emps|);
    assert emps[..|emps|] == emps;
    forall c | c in t.sales
      ensures LinkFirst(t.sales, emps, roles, |emps|)[c].(reportsTo := None) == t.sales[c].(reportsTo := None)
    {
      if Placed(emps, roles, c) {
        var i :| 0 <= i < |emps| && emps[i].id == c && RoleOf(emps[i]) in roles;
      }
    }
  }
}
