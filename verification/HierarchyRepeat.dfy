/**
 Repeating an upload: on the staff tables it changes nothing, but the level table can refuse it, when an
 earlier upload parked a level that is not in the config.
 */
module HierarchyRepeat {
  import opened Prelude
  import opened HierarchyModel
  import opened HierarchyTheorems

  /** Ids without surrounding blanks, and no real phone that looks like a stand-in. */
  ghost predicate Clean(emps: seq<Employee>) {
    forall i | 0 <= i < |emps| :: Trim(emps[i].id) == emps[i].id && !VacantForm(RealPhone(emps[i]))
  }

  lemma PhonesDiffer(emps: seq<Employee>)
    requires IdsOk(emps) && PhonesOk(emps) && Clean(emps)
    ensures forall i, j | 0 <= i < j < |emps| :: PhoneOf(emps[i]) != PhoneOf(emps[j])
  {
    forall i, j | 0 <= i < j < |emps| ensures PhoneOf(emps[i]) != PhoneOf(emps[j]) {
      VacantIsOneToOne(emps[i].id);
      VacantIsOneToOne(emps[j].id);
    }
  }

  /** A clean file that passes its own checks is safe, whatever the config. */
  lemma CleanIsSafe(emps: seq<Employee>, roles: map<string, Code>)
    requires IdsOk(emps) && PhonesOk(emps) && Clean(emps)
    ensures Safe(emps, roles)
  {
    PhonesDiffer(emps);
  }

  // ---- What a clean upload keeps --------------------------------------------------------------------

  lemma OneKeepsVacant(t: Staff, roles: map<string, Code>, e: Employee)
    requires Indexed(t) && VacantOwned(t) && PutEmployee(t, roles, e).Ok? && !VacantForm(RealPhone(e))
    ensures VacantOwned(PutEmployee(t, roles, e).value)
  {
    OneEmployee(t, roles, e);
    VacantIsOneToOne(e.id);
    var t' := PutEmployee(t, roles, e).value;
    forall u: UserId | u < |t'.users| && t'.users[u].active && VacantForm(t'.users[u].phone)
      ensures Owns(t'.sales, t'.users[u].phone[|VACANT|..], u)
    {
      if RoleOf(e) in roles && u != t'.sales[e.id].userId {
        var c := t.users[u].phone[|VACANT|..];
        assert Owns(t.sales, c, u) && SameRows(t, t', c);
      }
    }
  }

  lemma OneKeepsOwnPhoneFree(t: Staff, roles: map<string, Code>, e: Employee)
    requires Indexed(t) && PhoneFree(t, e)
    ensures PutEmployee(t, roles, e).Ok? && PhoneFree(PutEmployee(t, roles, e).value, e)
  {
    FreeGoesThrough(t, roles, e);
    OneEmployee(t, roles, e);
    var t' := PutEmployee(t, roles, e).value;
    forall u: UserId | u < |t'.users| && t'.users[u].active && t'.users[u].phone == PhoneOf(e)
      ensures Owns(t'.sales, e.id, u)
    {
      if RoleOf(e) in roles && u != t'.sales[e.id].userId { assert Owns(t.sales, e.id, u); }
    }
  }

  ghost predicate AllFree(t: Staff, emps: seq<Employee>) {
    forall i | 0 <= i < |emps| :: PhoneFree(t, emps[i])
  }

  lemma {:induction false} CleanUploadKeeps(t: Staff, roles: map<string, Code>, emps: seq<Employee>,
                                            n: nat)
    requires Indexed(t) && VacantOwned(t) && AllFree(t, emps) && n <= |emps|
    requires IdsOk(emps) && PhonesOk(emps) && Clean(emps)
    ensures PutEmployees(t, roles, emps[..n]).Ok?
    ensures var t' := PutEmployees(t, roles, emps[..n]).value; VacantOwned(t') && AllFree(t', emps)
  {
    if n > 0 {
      CleanUploadKeeps(t, roles, emps, n - 1);
      OneMore(t, roles, emps, n - 1);
      var t1 := PutEmployees(t, roles, emps[..n - 1]).value;
      OneKeepsOwnPhoneFree(t1, roles, emps[n - 1]);
      OneKeepsVacant(t1, roles, emps[n - 1]);
      PhonesDiffer(emps);
      forall i | 0 <= i < |emps| && i != n - 1
        ensures PhoneFree(PutEmployee(t1, roles, emps[n - 1]).value, emps[i])
      {
        FreeStaysFree(t1, roles, emps[n - 1], emps[i]);
      }
    }
  }

  // ---- The second upload on the staff tables -----------------------------------------------------------

  /** An employee that is already shown is written without a change. */
  lemma ShownIsNoChange(t: Staff, roles: map<string, Code>, e: Employee)
    requires Indexed(t) && Shows(t, roles, e) && PhoneFree(t, e)
    ensures PutEmployee(t, roles, e) == Ok(t)
  {
    FreeGoesThrough(t, roles, e);
    if RoleOf(e) in roles {
      var u := t.sales[e.id].userId;
      assert t.users[u := UserRow(e)] == t.users;
      assert PutEmployee(t, roles, e).value.sales == t.sales;
    }
  }

  lemma {:induction false} ShownUploadIsNoChange(t: Staff, roles: map<string, Code>,
                                                 emps: seq<Employee>)
    requires Indexed(t) && AllFree(t, emps)
    requires forall i | 0 <= i < |emps| :: Shows(t, roles, emps[i])
    ensures PutEmployees(t, roles, emps) == Ok(t)
  {
    if emps != [] {
      ShownUploadIsNoChange(t, roles, emps[..|emps| - 1]);
      ShownIsNoChange(t, roles, emps[|emps| - 1]);
    }
  }

  lemma LinkingTwice(sales: map<EmpCode, SalesUser>, emps: seq<Employee>, roles: map<string, Code>)
    requires DistinctIds(emps)
    ensures var once := LinkFirst(sales, emps, roles, |emps|);
      LinkFirst(once, emps, roles, |emps|) == once
  {
    var once := LinkFirst(sales, emps, roles, |emps|);
    LinksAreTheFiles(sales, emps, roles, |emps|);
    LinksAreTheFiles(once, emps, roles, |emps|);
    assert emps[..|emps|] == emps;
    forall c | c in once ensures LinkFirst(once, emps, roles, |emps|)[c] == once[c] {
      if Placed(emps, roles, c) {
        var i :| 0 <= i < |emps| && emps[i].id == c && RoleOf(emps[i]) in roles;
      }
    }
  }

  /** The staff tables after a whole upload. */
  function StaffAfter(t: Staff, roles: map<string, Code>, emps: seq<Employee>): Result<Staff>
    requires Indexed(t)
  {
    var put := PutEmployees(t, roles, emps);
    if put.Err? then put
    else Ok(Staff(put.value.users, LinkFirst(put.value.sales, emps, roles, |emps|)))
  }

  /** A clean upload goes through; it keeps every index and the ownership of stand-in phones, it passes
      the checks again, and repeating it changes nothing. */
  lemma StaffRepeats(t: Staff, roles: map<string, Code>, emps: seq<Employee>)
    requires Indexed(t) && VacantOwned(t) && ChecksPass(t, emps) && Clean(emps)
    ensures StaffAfter(t, roles, emps).Ok?
    ensures var t' := StaffAfter(t, roles, emps).value;
      && Indexed(t') && VacantOwned(t') && ChecksPass(t', emps)
      && StaffAfter(t', roles, emps) == Ok(t')
  {
    assert emps[..|emps|] == emps;
    IdsAreDistinct(emps);
    forall i | 0 <= i < |emps| ensures PhoneFree(t, emps[i]) { FreeAtFirst(t, emps[i]); }
    CleanUploadKeeps(t, roles, emps, |emps|);
    UploadShowsItsEmployees(t, roles, emps);
    var put := PutEmployees(t, roles, emps).value;
    LinkingKeepsShape(put, emps, roles);
    var t' := StaffAfter(t, roles, emps).value;
    assert AllFree(t', emps) by {
      forall i, u: UserId | 0 <= i < |emps| && u < |t'.users| && t'.users[u].active &&
        t'.users[u].phone == PhoneOf(emps[i])
        ensures Owns(t'.sales, emps[i].id, u)
      {
        assert PhoneFree(put, emps[i]);
      }
    }
    forall i, u: UserId | 0 <= i < |emps| && RealPhone(emps[i]) != "" && u < |t'.users| &&
      t'.users[u].active && t'.users[u].phone == RealPhone(emps[i])
      ensures Owns(t'.sales, Trim(emps[i].id), u)
    {
      assert PhoneFree(t', emps[i]);
    }
    ShownUploadIsNoChange(t', roles, emps);
    LinkingTwice(put.sales, emps, roles);
  }

  // ---- The second upload on the level table --------------------------------------------------------------

  predicate Clashes(levels: map<Code, Level>, config: seq<LevelRow>, c: Code, d: Code) {
    c in levels && c !in ConfigLevels(config) && d in ConfigLevels(config) &&
    levels[c].level in {ConfigLevels(config)[d].level, ConfigLevels(config)[d].level - SHIFT}
  }

  /** No row outside the config is at a level of the config, or parked where one would be parked. */
  ghost predicate NothingInTheWay(levels: map<Code, Level>, config: seq<LevelRow>) {
    forall c, d :: !Clashes(levels, config, c, d)
  }

  lemma LandingMeansClash(levels: map<Code, Level>, config: seq<LevelRow>, a: Code, b: Code)
    requires LevelsBelow(levels) && ConfigOk(config) && LandsOn(Arranged(levels, config), a, b)
    ensures Clashes(levels, config, b, a)
  {
    ShiftParks(levels);
    ConfigLevelsDiffer(config);
  }

  /** The next shift fits if and only if nothing was in the way; then it ends where it started. */
  lemma LevelsRepeat(levels: map<Code, Level>, config: seq<LevelRow>)
    requires LevelsUnique(levels) && LevelsBelow(levels) && ShiftFits(levels) && ConfigOk(config)
    ensures ShiftFits(Arranged(levels, config)) <==> NothingInTheWay(levels, config)
    ensures Arranged(Arranged(levels, config), config) == Arranged(levels, config)
  {
    var after := Arranged(levels, config);
    ShiftParks(levels);
    ConfigLevelsDiffer(config);
    if NothingInTheWay(levels, config) {
      forall a, b ensures !LandsOn(after, a, b) {
        if LandsOn(after, a, b) { LandingMeansClash(levels, config, a, b); }
      }
    } else {
      var c, d :| Clashes(levels, config, c, d);
      assert LandsOn(after, d, c);
    }
  }

  /** Uploading the same clean file twice: the second upload succeeds if and only if, before the first,
      nothing was in the way; and then it leaves every table exactly as the first did. */
  lemma SecondUploadSucceedsIff(t: Tables, config: seq<LevelRow>, emps: seq<Employee>)
    requires Valid(t) && VacantOwned(t.staff) && ConfigOk(config) && Clean(emps)
    requires Persist(t, config, emps).Ok?
    ensures var t' := Persist(t, config, emps).value;
      && Valid(t') && VacantOwned(t'.staff)
      && (Persist(t', config, emps).Ok? <==> NothingInTheWay(t.levels, config))
      && (Persist(t', config, emps).Ok? ==> Persist(t', config, emps).value == t')
  {
    var roles := Roles(config);
    var t' := Persist(t, config, emps).value;
    StaffRepeats(t.staff, roles, emps);
    ShiftParks(t.levels);
    ConfigFits(Shifted(t.levels), config);
    assert t'.levels == Arranged(t.levels, config) && t'.staff == StaffAfter(t.staff, roles, emps).value;
    ArrangedIsValid(t.levels, config);
    LevelsRepeat(t.levels, config);
    ShiftParks(t'.levels);
    ConfigFits(Shifted(t'.levels), config);
  }

  /** One forgotten level that shares a level with the config: the first upload is accepted, the second
      refused - even for a file without employees. */
  lemma ForgottenLevelBlocksUploads(config: seq<LevelRow>, c: Code, d: Code, name: string)
    requires ConfigOk(config) && c !in ConfigLevels(config) && d in ConfigLevels(config)
    ensures var t := Tables(map[c := Level(name, ConfigLevels(config)[d].level)], NOBODY);
      && Valid(t) && Persist(t, config, []).Ok?
      && Valid(Persist(t, config, []).value)
      && Persist(Persist(t, config, []).value, config, []) == Err(UniqueViolation)
  {
    ConfigLevelsDiffer(config);
    var t := Tables(map[c := Level(name, ConfigLevels(config)[d].level)], NOBODY);
    UploadGoesThroughIff(t, config, []);
    SecondUploadSucceedsIff(t, config, []);
    assert Clashes(t.levels, config, c, d);
  }
}
