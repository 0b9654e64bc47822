/**
 What an upload that gets through leaves in the tables, row by row and in the source's own words: which
 role, name, phone and state each user has, which level and manager each employee, and what stays.
 */
module HierarchyRows {
  import opened Prelude
  import opened HierarchyModel
  import opened HierarchyTheorems

  // ---- Users ----------------------------------------------------------------------------------------

  /** The coarse role of a role code, in any case and with any blanks around it. */
  ghost predicate RoleFits(roleCode: string, role: string) {
    && (Reads(roleCode, "NSM") ==> role == "SALES_HO")
    && (Reads(roleCode, "ZNM") ==> role == "SALES_STATE_HEAD")
    && (Reads(roleCode, "RSM") ==> role == "SALES_STATE_HEAD")
    && (Reads(roleCode, "ASM") ==> role == "SALES_ASM")
    && (Reads(roleCode, "SO") ==> role == "SALES_SO")
    && ((forall code | code in {"NSM", "ZNM", "RSM", "ASM", "SO"} :: !Reads(roleCode, code)) ==>
          role == "SALES_ISR")
  }

  lemma RoleFitsIff(roleCode: string, role: string)
    ensures RoleFits(roleCode, role) <==> UserRole(roleCode) == role
  {
    ReadsIff(roleCode, "NSM");
    ReadsIff(roleCode, "ZNM");
    ReadsIff(roleCode, "RSM");
    ReadsIff(roleCode, "ASM");
    ReadsIff(roleCode, "SO");
  }

  /** Without a phone and without a name - or marked so - an employee is a placeholder. */
  predicate IsVacant(e: Employee) {
    e.placeholder || (AllBlank(e.mobile) && (e.name == None || e.name == Some("")))
  }

  /** The phone is the one of the file without the blanks around it, or a stand-in made of the id. */
  ghost predicate PhoneFits(e: Employee, phone: string) {
    if AllBlank(e.mobile) then phone == "__vacant__:" + e.id
    else Bare(phone) && exists before: string, after: string ::
           AllBlank(before) && AllBlank(after) && e.mobile == before + phone + after
  }

  ghost predicate UserFits(e: Employee, u: User) {
    && PhoneFits(e, u.phone)
    && u.name == (match e.name case Some(n) => n case None => "(vacant) " + e.id)
    && RoleFits(e.roleCode, u.role)
    && u.active == !IsVacant(e)
  }

  lemma OwnPhoneFits(e: Employee)
    ensures PhoneFits(e, PhoneOf(e))
  {
    BlankTrims(e.mobile);
    if !AllBlank(e.mobile) {
      TrimSplits(e.mobile);
    }
  }

  lemma RowFits(e: Employee)
    ensures UserFits(e, UserRow(e)) && (IsPlaceholder(e) <==> IsVacant(e))
  {
    RoleFitsIff(e.roleCode, UserRole(e.roleCode));
    OwnPhoneFits(e);
    BlankTrims(e.mobile);
  }

  // ---- Levels ---------------------------------------------------------------------------------------

  /** The last row of the config for this role, whatever the case and the blanks of the role code. */
  ghost predicate RoleIsRow(config: seq<LevelRow>, roleCode: string, k: int) {
    && 0 <= k < |config| && Upper(Trim(roleCode)) == Upper(config[k].code)
    && forall l | k < l < |config| :: Upper(Trim(roleCode)) != Upper(config[l].code)
  }

  ghost predicate InSomeRow(config: seq<LevelRow>, roleCode: string) {
    exists k :: RoleIsRow(config, roleCode, k)
  }

  lemma {:induction false} RolesAreRows(config: seq<LevelRow>, roleCode: string)
    ensures Upper(Trim(roleCode)) in Roles(config) <==> InSomeRow(config, roleCode)
    ensures forall k | RoleIsRow(config, roleCode, k) ::
      Upper(Trim(roleCode)) in Roles(config) && Roles(config)[Upper(Trim(roleCode))] == config[k].code
  {
    if config != [] {
      var before, row := config[..|config| - 1], config[|config| - 1];
      RolesAreRows(before, roleCode);
      if Upper(row.code) == Upper(Trim(roleCode)) {
        assert RoleIsRow(config, roleCode, |config| - 1);
      } else {
        forall k ensures RoleIsRow(config, roleCode, k) <==> RoleIsRow(before, roleCode, k) {
          if RoleIsRow(before, roleCode, k) { assert config[k] == before[k]; }
          if RoleIsRow(config, roleCode, k) {
            assert before[k] == config[k];
            forall l | k < l < |before| ensures Upper(Trim(roleCode)) != Upper(before[l].code) {
              assert before[l] == config[l];
            }
          }
        }
      }
    }
  }

  /** The last row of the config with this code. */
  ghost predicate LastRow(config: seq<LevelRow>, k: int) {
    0 <= k < |config| && forall l | k < l < |config| :: config[l].code != config[k].code
  }

  /** Each code of the config has its name and level; any other row at or above zero has been moved down
      by a million, and one below zero has stayed. */
  ghost predicate LevelsFit(levels: map<Code, Level>, levels': map<Code, Level>, config: seq<LevelRow>) {
    && (forall k | LastRow(config, k) ::
          config[k].code in levels' && levels'[config[k].code] == Level(config[k].name, config[k].level))
    && (forall c | c in levels' :: c in levels || exists k | LastRow(config, k) :: config[k].code == c)
    && (forall c | c in levels && (forall k | 0 <= k < |config| :: config[k].code != c) ::
          c in levels' && levels'[c].name == levels[c].name &&
          levels'[c].level == if levels[c].level < 0 then levels[c].level else levels[c].level - 1_000_000)
  }

  lemma {:induction false} ConfigOverlays(parked: map<Code, Level>, config: seq<LevelRow>)
    requires PutLevels(parked, config).Ok?
    ensures PutLevels(parked, config).value == parked + ConfigLevels(config)
  {
    if config != [] { ConfigOverlays(parked, config[..|config| - 1]); }
  }

  lemma {:induction false} LastRowCounts(config: seq<LevelRow>, k: int)
    requires LastRow(config, k)
    ensures config[k].code in ConfigLevels(config)
    ensures ConfigLevels(config)[config[k].code] == Level(config[k].name, config[k].level)
  {
    var n := |config| - 1;
    if k < n {
      assert config[n].code != config[k].code;
      assert LastRow(config[..n], k) by {
        forall l | k < l < n ensures config[..n][l].code != config[..n][k].code { assert config[l] == config[..n][l]; }
      }
      LastRowCounts(config[..n], k);
    }
  }

  lemma {:induction false} CodeHasLastRow(config: seq<LevelRow>, c: Code) returns (k: int)
    requires exists i :: 0 <= i < |config| && config[i].code == c
    ensures LastRow(config, k) && config[k].code == c
  {
    var n := |config| - 1;
    if config[n].code == c {
      k := n;
    } else {
      var i :| 0 <= i < |config| && config[i].code == c;
      assert config[..n][i].code == c;
      k := CodeHasLastRow(config[..n], c);
      forall l | k < l <= n ensures config[l].code != c { if l < n { assert config[..n][l] == config[l]; } }
    }
  }

  lemma ConfigIsWritten(levels: map<Code, Level>, config: seq<LevelRow>)
    requires PutLevels(Shifted(levels), config).Ok?
    ensures LevelsFit(levels, PutLevels(Shifted(levels), config).value, config)
  {
    ConfigOverlays(Shifted(levels), config);
    forall k | LastRow(config, k) { LastRowCounts(config, k); }
    forall c | c in ConfigLevels(config) ensures exists k | LastRow(config, k) :: config[k].code == c {
      ConfigLevelsFrom(config, c);
      var k := CodeHasLastRow(config, c);
    }
  }

  // ---- Managers -------------------------------------------------------------------------------------

  /** Employee `c` is in the upload, with a role of the config. */
  ghost predicate Uploaded(config: seq<LevelRow>, emps: seq<Employee>, c: EmpCode) {
    exists i :: UploadedAt(config, emps, i, c)
  }

  ghost predicate UploadedAt(config: seq<LevelRow>, emps: seq<Employee>, i: int, c: EmpCode) {
    0 <= i < |emps| && emps[i].id == c && InSomeRow(config, emps[i].roleCode)
  }

  ghost predicate ManagerFits(config: seq<LevelRow>, emps: seq<Employee>, e: Employee, manager: Option<EmpCode>) {
    if e.reportsTo.Some? && e.reportsTo.value != "" && Uploaded(config, emps, e.reportsTo.value)
    then manager == e.reportsTo else manager == None
  }

  lemma UploadedIsPlaced(config: seq<LevelRow>, emps: seq<Employee>, c: EmpCode)
    ensures Uploaded(config, emps, c) <==> Placed(emps, Roles(config), c)
  {
    forall i | 0 <= i < |emps| { RolesAreRows(config, emps[i].roleCode); }
    if Placed(emps, Roles(config), c) {
      var i :| 0 <= i < |emps| && emps[i].id == c && RoleOf(emps[i]) in Roles(config);
      assert UploadedAt(config, emps, i, c);
    }
    if Uploaded(config, emps, c) {
      var i :| UploadedAt(config, emps, i, c);
      assert emps[i].id == c && RoleOf(emps[i]) in Roles(config);
    }
  }

  // ---- The whole upload -------------------------------------------------------------------------------

  /** The rows of one uploaded employee. */
  ghost predicate Written(t: Staff, config: seq<LevelRow>, emps: seq<Employee>, i: int)
    requires 0 <= i < |emps|
  {
    var e := emps[i];
    && e.id in t.sales && t.sales[e.id].userId < |t.users|
    && UserFits(e, t.users[t.sales[e.id].userId])
    && t.sales[e.id].active == !IsVacant(e) && !t.sales[e.id].deleted
    && (forall k | RoleIsRow(config, e.roleCode, k) :: t.sales[e.id].level == config[k].code)
    && ManagerFits(config, emps, e, t.sales[e.id].reportsTo)
  }

  lemma StaffIsWritten(t: Staff, config: seq<LevelRow>, emps: seq<Employee>, i: int)
    requires Indexed(t) && DistinctIds(emps) && PutEmployees(t, Roles(config), emps).Ok?
    requires 0 <= i < |emps| && InSomeRow(config, emps[i].roleCode)
    ensures var staff := PutEmployees(t, Roles(config), emps).value;
      Written(Staff(staff.users, LinkFirst(staff.sales, emps, Roles(config), |emps|)), config, emps, i)
  {
    var roles := Roles(config);
    var staff := PutEmployees(t, roles, emps).value;
    UploadShowsItsEmployees(t, roles, emps);
    LinksAreTheFiles(staff.sales, emps, roles, |emps|);
    RolesAreRows(config, emps[i].roleCode);
    RowFits(emps[i]);
    assert Shows(staff, roles, emps[i]);
    if emps[i].reportsTo.Some? { UploadedIsPlaced(config, emps, emps[i].reportsTo.value); }
  }

  lemma OthersAreKept(t: Staff, config: seq<LevelRow>, emps: seq<Employee>, c: EmpCode)
    requires Indexed(t) && DistinctIds(emps) && PutEmployees(t, Roles(config), emps).Ok?
    requires !Uploaded(config, emps, c)
    ensures var staff := PutEmployees(t, Roles(config), emps).value;
      SameRows(t, Staff(staff.users, LinkFirst(staff.sales, emps, Roles(config), |emps|)), c)
  {
    var roles := Roles(config);
    var staff := PutEmployees(t, roles, emps).value;
    UploadShowsItsEmployees(t, roles, emps);
    LinksAreTheFiles(staff.sales, emps, roles, |emps|);
    UploadedIsPlaced(config, emps, c);
    assert emps[..|emps|] == emps;
    assert SameRows(t, staff, c);
  }

  /** User `u` belongs to one of the uploaded employees. */
  ghost predicate OfUpload(sales: map<EmpCode, SalesUser>, roles: map<string, Code>, emps: seq<Employee>, u: UserId) {
    exists i :: InConfig(emps, roles, i) && Owns(sales, emps[i].id, u)
  }

  lemma {:induction false} OtherUsersStay(t: Staff, roles: map<string, Code>, emps: seq<Employee>, u: UserId)
    requires Indexed(t) && DistinctIds(emps) && PutEmployees(t, roles, emps).Ok? && u < |t.users|
    requires !OfUpload(PutEmployees(t, roles, emps).value.sales, roles, emps, u)
    ensures u < |PutEmployees(t, roles, emps).value.users|
    ensures PutEmployees(t, roles, emps).value.users[u] == t.users[u]
  {
    if emps != [] {
      var before, e := emps[..|emps| - 1], emps[|emps| - 1];
      var t1, t' := PutEmployees(t, roles, before).value, PutEmployees(t, roles, emps).value;
      OneEmployee(t1, roles, e);
      forall i | InConfig(before, roles, i) ensures !Owns(t1.sales, before[i].id, u) {
        assert InConfig(emps, roles, i) && before[i] == emps[i];
        assert SameRows(t1, t', emps[i].id) && !Owns(t'.sales, emps[i].id, u);
      }
      OtherUsersStay(t, roles, before, u);
      if RoleOf(e) in roles {
        assert InConfig(emps, roles, |emps| - 1);
        assert !Owns(t'.sales, e.id, u);
      }
    }
  }

  /** Every upload that gets through leaves each employee with a role of the config as the file has it, every
      other employee as it was, and the levels rearranged. */
  lemma PersistWritesTheFile(t: Tables, config: seq<LevelRow>, emps: seq<Employee>)
    requires Valid(t) && Persist(t, config, emps).Ok?
    ensures var t' := Persist(t, config, emps).value;
      && LevelsFit(t.levels, t'.levels, config)
      && (forall i | 0 <= i < |emps| && InSomeRow(config, emps[i].roleCode) :: Written(t'.staff, config, emps, i))
      && (forall c | !Uploaded(config, emps, c) :: SameRows(t.staff, t'.staff, c))
      && (forall u: UserId | u < |t.staff.users| && !OfUpload(t'.staff.sales, Roles(config), emps, u) ::
            u < |t'.staff.users| && t'.staff.users[u] == t.staff.users[u])
  {
    IdsAreDistinct(emps);
    var staff := PutEmployees(t.staff, Roles(config), emps).value;
    LinkingKeepsShape(staff, emps, Roles(config));
    forall u: UserId | u < |t.staff.users| &&
      !OfUpload(LinkFirst(staff.sales, emps, Roles(config), |emps|), Roles(config), emps, u)
      ensures u < |staff.users| && staff.users[u] == t.staff.users[u]
    {
      OtherUsersStay(t.staff, Roles(config), emps, u);
    }
    ConfigIsWritten(t.levels, config);
    forall i | 0 <= i < |emps| && InSomeRow(config, emps[i].roleCode) { StaffIsWritten(t.staff, config, emps, i); }
    forall c | !Uploaded(config, emps, c) { OthersAreKept(t.staff, config, emps, c); }
  }
}
