/**
 Persisting an employee-hierarchy upload into the level, user and sales-user tables of one tenant, in
 one transaction.  Every write is checked against the unique indexes the database keeps, so an upload
 can fail half-way - and is then rolled back.
 */
module HierarchyModel {
  import opened Prelude

  type Code = string       // a level code
  type EmpCode = string    // an employee code
  type UserId = nat        // position in the users table; rows are never deleted

  datatype Failure = BadRequest | UniqueViolation

  datatype Result<+T> = Ok(value: T) | Err(error: Failure)

  // ---- The upload -------------------------------------------------------------------------------

  datatype LevelRow = LevelRow(code: Code, name: string, level: int)

  datatype Employee = Employee(id: EmpCode, roleCode: string, reportsTo: Option<EmpCode>,
                               name: Option<string>, mobile: string, placeholder: bool)

  datatype User = User(phone: string, name: string, role: string, active: bool)

  datatype SalesUser = SalesUser(userId: UserId, level: Code, active: bool, deleted: bool,
                                 reportsTo: Option<EmpCode>)

  /** The coarse bucket of a role code. */
  function UserRole(roleCode: string): string {
    var code := Upper(Trim(roleCode));
    if code == "NSM" then "SALES_HO"
    else if code == "ZNM" || code == "RSM" then "SALES_STATE_HEAD"
    else if code == "ASM" then "SALES_ASM"
    else if code == "SO" then "SALES_SO"
    else "SALES_ISR"
  }

  const VACANT := "__vacant__:"

  /** The stand-in phone of an employee without one. */
  function Vacant(code: EmpCode): string { VACANT + code }

  function RealPhone(e: Employee): string { Trim(e.mobile) }

  function PhoneOf(e: Employee): string { if RealPhone(e) != "" then RealPhone(e) else Vacant(e.id) }

  predicate IsPlaceholder(e: Employee) {
    e.placeholder || ((e.name == None || e.name == Some("")) && RealPhone(e) == "")
  }

  function UserRow(e: Employee): User {
    User(PhoneOf(e), if e.name.Some? then e.name.value else "(vacant) " + e.id, UserRole(e.roleCode),
         !IsPlaceholder(e))
  }

  // ---- Tables -----------------------------------------------------------------------------------

  datatype Staff = Staff(users: seq<User>, sales: map<EmpCode, SalesUser>)

  /** The partial unique index: one ACTIVE user per phone. */
  predicate PhoneTaken(users: seq<User>, phone: string, but: UserId) {
    exists i :: 0 <= i < |users| && i != but && users[i].active && users[i].phone == phone
  }

  ghost predicate PhonesUnique(users: seq<User>) {
    forall i, j | 0 <= i < j < |users| && users[i].active && users[j].active ::
      users[i].phone != users[j].phone
  }

  /** The user of `u` is the employee `c`. */
  predicate Owns(sales: map<EmpCode, SalesUser>, c: EmpCode, u: UserId) {
    c in sales && sales[c].userId == u
  }

  predicate UserTaken(sales: map<EmpCode, SalesUser>, u: UserId, but: EmpCode) {
    exists c :: c in sales && c != but && Owns(sales, c, u)
  }

  /** The unique index on the user of a sales user, and its foreign key. */
  ghost predicate UsersOwnedOnce(t: Staff) {
    && (forall c | c in t.sales :: t.sales[c].userId < |t.users|)
    && (forall c, d | c in t.sales && d in t.sales && c != d :: t.sales[c].userId != t.sales[d].userId)
  }

  ghost predicate Indexed(t: Staff) { PhonesUnique(t.users) && UsersOwnedOnce(t) }

  // ---- The checks before any write ----------------------------------------------------------------

  ghost predicate IdsOk(emps: seq<Employee>) {
    && (forall i | 0 <= i < |emps| :: Trim(emps[i].id) != "")
    && (forall i, j | 0 <= i < j < |emps| :: Trim(emps[i].id) != Trim(emps[j].id))
  }

  ghost predicate PhonesOk(emps: seq<Employee>) {
    forall i, j | 0 <= i < j < |emps| && RealPhone(emps[i]) != "" :: RealPhone(emps[i]) != RealPhone(emps[j])
  }

  /** No ACTIVE user that has the phone of an uploaded employee is anybody but that employee. */
  ghost predicate PhonesFree(t: Staff, emps: seq<Employee>) {
    forall i, u: UserId | 0 <= i < |emps| && RealPhone(emps[i]) != "" && u < |t.users| &&
      t.users[u].active && t.users[u].phone == RealPhone(emps[i]) ::
      Owns(t.sales, Trim(emps[i].id), u)
  }

  ghost predicate ChecksPass(t: Staff, emps: seq<Employee>) {
    IdsOk(emps) && PhonesOk(emps) && PhonesFree(t, emps)
  }

  // ---- Levels -------------------------------------------------------------------------------------

  datatype Level = Level(name: string, level: int)

  const SHIFT := 1_000_000

  predicate LevelTaken(levels: map<Code, Level>, level: int, but: Code) {
    exists c :: c in levels && c != but && levels[c].level == level
  }

  ghost predicate LevelsUnique(levels: map<Code, Level>) {
    forall c, d | c in levels && d in levels && c != d :: levels[c].level != levels[d].level
  }

  /** Real levels stay far below the shift. */
  ghost predicate LevelsBelow(levels: map<Code, Level>) {
    forall c | c in levels :: levels[c].level < SHIFT
  }

  function Down(row: Level): Level {
    if row.level >= 0 then row.(level := row.level - SHIFT) else row
  }

  function Shifted(levels: map<Code, Level>): map<Code, Level> {
    map c | c in levels :: Down(levels[c])
  }

  predicate LandsOn(levels: map<Code, Level>, a: Code, b: Code) {
    a in levels && b in levels && levels[a].level >= 0 && levels[b].level == levels[a].level - SHIFT
  }

  /** No row at a level is parked where another row would land. */
  ghost predicate ShiftFits(levels: map<Code, Level>) {
    forall a, b :: !LandsOn(levels, a, b)
  }

  function PutLevel(levels: map<Code, Level>, row: LevelRow): Result<map<Code, Level>> {
    if LevelTaken(levels, row.level, row.code) then Err(UniqueViolation)
    else Ok(levels[row.code := Level(row.name, row.level)])
  }

  function PutLevels(levels: map<Code, Level>, config: seq<LevelRow>): (r: Result<map<Code, Level>>)
    ensures r.Err? ==> r.error == UniqueViolation
  {
    if config == [] then Ok(levels)
    else
      var before := PutLevels(levels, config[..|config| - 1]);
      if before.Err? then before else PutLevel(before.value, config[|config| - 1])
  }

  /** The level of each role: role codes are looked up in upper case. */
  function Roles(config: seq<LevelRow>): map<string, Code> {
    if config == [] then map[]
    else
      var row := config[|config| - 1];
      Roles(config[..|config| - 1])[Upper(row.code) := row.code]
  }

  // ---- One employee -------------------------------------------------------------------------------

  function RoleOf(e: Employee): string { Upper(Trim(e.roleCode)) }

  /** The first ACTIVE user with a phone, from a position on. */
  function Holder(users: seq<User>, phone: string, from: nat := 0): (r: Option<UserId>)
    ensures r.Some? ==> from <= r.value < |users| && users[r.value].active && users[r.value].phone == phone
    ensures r.None? ==> forall i | from <= i < |users| :: !(users[i].active && users[i].phone == phone)
    decreases |users| - from
  {
    if from >= |users| then None
    else if users[from].active && users[from].phone == phone then Some(from)
    else Holder(users, phone, from + 1)
  }

  /** The user row of an employee: the row of its sales user when it has one; else the ACTIVE user that
      has its phone; else a new row. */
  function PutUser(t: Staff, e: Employee): Result<(seq<User>, UserId)>
    requires forall c | c in t.sales :: t.sales[c].userId < |t.users|
  {
    var row := UserRow(e);
    if e.id in t.sales then
      var u := t.sales[e.id].userId;
      if row.active && PhoneTaken(t.users, row.phone, u) then Err(UniqueViolation)
      else Ok((t.users[u := row], u))
    else
      var holder := Holder(t.users, row.phone);
      if holder.Some? then Ok((t.users[holder.value := row], holder.value))
      else Ok((t.users + [row], |t.users|))
  }

  /** The sales-user row; a link to the manager is left as it was. */
  function PutSales(sales: map<EmpCode, SalesUser>, e: Employee, level: Code, u: UserId)
    : Result<map<EmpCode, SalesUser>>
  {
    if UserTaken(sales, u, e.id) then Err(UniqueViolation)
    else
      var reportsTo := if e.id in sales then sales[e.id].reportsTo else None;
      Ok(sales[e.id := SalesUser(u, level, !IsPlaceholder(e), false, reportsTo)])
  }

  function PutEmployee(t: Staff, roles: map<string, Code>, e: Employee): Result<Staff>
    requires forall c | c in t.sales :: t.sales[c].userId < |t.users|
  {
    if RoleOf(e) !in roles then Ok(t)      // a role outside the config is skipped
    else
      var user := PutUser(t, e);
      if user.Err? then Err(user.error)
      else
        var sales := PutSales(t.sales, e, roles[RoleOf(e)], user.value.1);
        if sales.Err? then Err(sales.error) else Ok(Staff(user.value.0, sales.value))
  }

  lemma PutEmployeeKeepsIndexes(t: Staff, roles: map<string, Code>, e: Employee)
    requires Indexed(t)
    ensures PutEmployee(t, roles, e).Ok? ==> Indexed(PutEmployee(t, roles, e).value)
    ensures PutEmployee(t, roles, e).Err? ==> PutEmployee(t, roles, e).error == UniqueViolation
  {
    if RoleOf(e) in roles && PutEmployee(t, roles, e).Ok? {
      var users, u := PutUser(t, e).value.0, PutUser(t, e).value.1;
      assert PhonesUnique(users) && u < |users| && |users| >= |t.users|;
      var sales := PutSales(t.sales, e, roles[RoleOf(e)], u).value;
      forall c | c in sales && c != e.id ensures sales[c].userId != u {
        assert sales[c] == t.sales[c];
        assert !Owns(t.sales, c, u);
      }
    }
  }

  /** All employees in upload order. */
  function PutEmployees(t: Staff, roles: map<string, Code>, emps: seq<Employee>): (r: Result<Staff>)
    requires Indexed(t)
    ensures r.Ok? ==> Indexed(r.value)
    ensures r.Err? ==> r.error == UniqueViolation
  {
    if emps == [] then Ok(t)
    else
      var before := PutEmployees(t, roles, emps[..|emps| - 1]);
      if before.Err? then before
      else
        PutEmployeeKeepsIndexes(before.value, roles, emps[|emps| - 1]);
        PutEmployee(before.value, roles, emps[|emps| - 1])
  }

  // ---- Reporting links ----------------------------------------------------------------------------

  /** Employee `c` is in the upload with a role of the config. */
  predicate Placed(emps: seq<Employee>, roles: map<string, Code>, c: EmpCode) {
    exists i :: 0 <= i < |emps| && emps[i].id == c && RoleOf(emps[i]) in roles
  }

  /** An uploaded employee reports to the uploaded employee it names, or to nobody. */
  function LinkOf(emps: seq<Employee>, roles: map<string, Code>, e: Employee): Option<EmpCode> {
    if e.reportsTo.Some? && e.reportsTo.value != "" && Placed(emps, roles, e.reportsTo.value)
    then e.reportsTo else None
  }

  function LinkFirst(sales: map<EmpCode, SalesUser>, emps: seq<Employee>, roles: map<string, Code>,
                     n: nat): map<EmpCode, SalesUser>
    requires n <= |emps|
  {
    if n == 0 then sales
    else
      var before := LinkFirst(sales, emps, roles, n - 1);
      var e := emps[n - 1];
      if RoleOf(e) in roles && e.id in before
      then before[e.id := before[e.id].(reportsTo := LinkOf(emps, roles, e))] else before
  }

  // ---- The whole upload ---------------------------------------------------------------------------

  datatype Tables = Tables(levels: map<Code, Level>, staff: Staff)

  ghost predicate Valid(t: Tables) {
    Indexed(t.staff) && LevelsUnique(t.levels) && LevelsBelow(t.levels)
  }

  ghost function Persist(t: Tables, config: seq<LevelRow>, emps: seq<Employee>): Result<Tables>
    requires Valid(t)
  {
    if !ChecksPass(t.staff, emps) then Err(BadRequest)
    else if !ShiftFits(t.levels) then Err(UniqueViolation)
    else
      var levels := PutLevels(Shifted(t.levels), config);
      if levels.Err? then Err(levels.error)
      else
        var staff := PutEmployees(t.staff, Roles(config), emps);
        if staff.Err? then Err(staff.error)
        else Ok(Tables(levels.value, Staff(staff.value.users,
                         LinkFirst(staff.value.sales, emps, Roles(config), |emps|))))
  }

  // ---- The transaction ----------------------------------------------------------------------------

  class HierarchyStore {
    var levels: map<Code, Level>
    var users: seq<User>
    var sales: map<EmpCode, SalesUser>

    function Now(): Tables
      reads this
    {
      Tables(levels, Staff(users, sales))
    }

    /** Ids and phones of the file itself. */
    method CheckFile(emps: seq<Employee>) returns (ok: bool)
      ensures ok <==> IdsOk(emps) && PhonesOk(emps)
    {
      var seen: set<string> := {};
      for i := 0 to |emps|
        invariant IdsOk(emps[..i])
        invariant forall c :: c in seen <==> exists j :: 0 <= j < i && Trim(emps[j].id) == c
      {
        var code := Trim(emps[i].id);
        if code == "" || code in seen { return false; }
        seen := seen + {code};
      }
      assert emps[..|emps|] == emps;
      var codeByPhone: map<string, EmpCode> := map[];
      for i := 0 to |emps|
        invariant PhonesOk(emps[..i])
        invariant forall p :: p in codeByPhone <==>
          exists j :: 0 <= j < i && RealPhone(emps[j]) == p && p != ""
      {
        var phone := RealPhone(emps[i]);
        if phone != "" {
          if phone in codeByPhone { return false; }
          codeByPhone := codeByPhone[phone := Trim(emps[i].id)];
        }
      }
      return true;
    }

    /** Phones of the file against the ACTIVE users. */
    method CheckPhones(emps: seq<Employee>) returns (ok: bool)
      ensures ok <==> PhonesFree(Now().staff, emps)
    {
      for i := 0 to |emps|
        invariant PhonesFree(Now().staff, emps[..i])
      {
        var phone := RealPhone(emps[i]);
        if phone != "" {
          for u := 0 to |users|
            invariant forall v: UserId | v < u && users[v].active && users[v].phone == phone ::
              Owns(sales, Trim(emps[i].id), v)
          {
            if users[u].active && users[u].phone == phone && !Owns(sales, Trim(emps[i].id), u) {
              return false;
            }
          }
        }
      }
      return true;
    }

    /** The levels move down row by row, in any order; each row is checked as it moves. */
    method ShiftLevels() returns (ok: bool)
      requires LevelsUnique(levels) && LevelsBelow(levels)
      modifies this`levels
      ensures ok <==> ShiftFits(old(levels))
      ensures ok ==> levels == Shifted(old(levels))
    {
      ghost var start := levels;
      var todo := set c | c in levels && levels[c].level >= 0;
      while todo != {}
        invariant levels.Keys == start.Keys
        invariant forall c :: c in todo ==> c in start && start[c].level >= 0
        invariant forall c | c in start :: levels[c] == if c in todo then start[c] else Down(start[c])
        invariant forall a, b | a !in todo :: !LandsOn(start, a, b)
        decreases todo
      {
        var c :| c in todo;
        if LevelTaken(levels, levels[c].level - SHIFT, c) {
          ghost var d :| d in levels && d != c && levels[d].level == levels[c].level - SHIFT;
          assert LandsOn(start, c, d);
          return false;
        }
        forall b ensures !LandsOn(start, c, b) {
          assert b in start && b != c ==> levels[b].level != levels[c].level - SHIFT;
        }
        levels := levels[c := levels[c].(level := levels[c].level - SHIFT)];
        todo := todo - {c};
      }
      assert levels == Shifted(start);
      return true;
    }

    method UpsertLevels(config: seq<LevelRow>) returns (ok: bool, roles: map<string, Code>)
      modifies this`levels
      ensures ok <==> PutLevels(old(levels), config).Ok?
      ensures ok ==> levels == PutLevels(old(levels), config).value && roles == Roles(config)
    {
      roles := map[];
      for i := 0 to |config|
        invariant PutLevels(old(levels), config[..i]) == Ok(levels) && roles == Roles(config[..i])
      {
        var row := config[i];
        assert config[..i + 1][..i] == config[..i];
        if LevelTaken(levels, row.level, row.code) {
          FailedLevelsStay(old(levels), config, i + 1);
          return false, roles;
        }
        levels := levels[row.code := Level(row.name, row.level)];
        roles := roles[Upper(row.code) := row.code];
      }
      assert config[..|config|] == config;
      return true, roles;
    }

    /** The user row of one employee. */
    method UpsertUser(e: Employee) returns (r: Result<UserId>)
      requires Indexed(Now().staff)
      modifies this`users
      ensures match PutUser(old(Now().staff), e)
        case Err(f) => r == Err(f)
        case Ok(p) => users == p.0 && r == Ok(p.1)
    {
      var row := UserRow(e);
      if e.id in sales {
        var u := sales[e.id].userId;
        if row.active && PhoneTaken(users, row.phone, u) { return Err(UniqueViolation); }
        users := users[u := row];
        return Ok(u);
      }
      var holder := Holder(users, row.phone);
      if holder.Some? {
        users := users[holder.value := row];
        return Ok(holder.value);
      }
      users := users + [row];
      return Ok(|users| - 1);
    }

    method UpsertEmployee(e: Employee, roles: map<string, Code>) returns (ok: bool)
      requires Indexed(Now().staff)
      modifies this`users, this`sales
      ensures ok <==> PutEmployee(old(Now().staff), roles, e).Ok?
      ensures ok ==> Now().staff == PutEmployee(old(Now().staff), roles, e).value
    {
      if RoleOf(e) !in roles { return true; }
      var user := UpsertUser(e);
      if user.Err? || UserTaken(sales, user.value, e.id) { return false; }
      var reportsTo := if e.id in sales then sales[e.id].reportsTo else None;
      sales := sales[e.id := SalesUser(user.value, roles[RoleOf(e)], !IsPlaceholder(e), false, reportsTo)];
      return true;
    }

    method UpsertEmployees(emps: seq<Employee>, roles: map<string, Code>) returns (ok: bool)
      requires Indexed(Now().staff)
      modifies this`users, this`sales
      ensures ok <==> PutEmployees(old(Now().staff), roles, emps).Ok?
      ensures ok ==> Now().staff == PutEmployees(old(Now().staff), roles, emps).value
    {
      for i := 0 to |emps|
        invariant Indexed(Now().staff)
        invariant PutEmployees(old(Now().staff), roles, emps[..i]) == Ok(Now().staff)
      {
        OneMore(old(Now().staff), roles, emps, i);
        var done := UpsertEmployee(emps[i], roles);
        if !done {
          FailedEmployeesStay(old(Now().staff), roles, emps, i + 1);
          return false;
        }
      }
      assert emps[..|emps|] == emps;
      return true;
    }

    method LinkManagers(emps: seq<Employee>, roles: map<string, Code>)
      modifies this`sales
      ensures sales == LinkFirst(old(sales), emps, roles, |emps|)
    {
      for i := 0 to |emps|
        invariant sales == LinkFirst(old(sales), emps, roles, i)
      {
        var e := emps[i];
        if RoleOf(e) in roles && e.id in sales {
          sales := sales[e.id := sales[e.id].(reportsTo := LinkOf(emps, roles, e))];
        }
      }
    }

    /** The whole upload; a failure rolls everything back. */
    method PersistHierarchy(config: seq<LevelRow>, emps: seq<Employee>) returns (r: Result<()>)
      requires Valid(Now())
      modifies this
      ensures match Persist(old(Now()), config, emps)
        case Ok(t) => r == Ok(()) && Now() == t
        case Err(f) => r == Err(f) && Now() == old(Now())
    {
      var fileOk := CheckFile(emps);
      if !fileOk { return Err(BadRequest); }
      var phonesOk := CheckPhones(emps);
      if !phonesOk { return Err(BadRequest); }
      var levels0, users0, sales0 := levels, users, sales;
      var ok := ShiftLevels();
      var roles: map<string, Code>;
      if ok { ok, roles := UpsertLevels(config); }
      if ok { ok := UpsertEmployees(emps, roles); }
      if !ok {
        levels, users, sales := levels0, users0, sales0;
        return Err(UniqueViolation);
      }
      LinkManagers(emps, roles);
      return Ok(());
    }
  }

  // ---- Once an upload has failed it stays failed ---------------------------------------------------

  lemma {:induction false} FailedLevelsStay(levels: map<Code, Level>, config: seq<LevelRow>, n: nat)
    requires n <= |config| && PutLevels(levels, config[..n]).Err?
    ensures PutLevels(levels, config).Err?
    decreases |config| - n
  {
    if n == |config| {
      assert config[..n] == config;
    } else {
      assert config[..n + 1][..n] == config[..n];
      FailedLevelsStay(levels, config, n + 1);
    }
  }

  lemma OneMore(t: Staff, roles: map<string, Code>, emps: seq<Employee>, i: nat)
    requires Indexed(t) && i < |emps| && PutEmployees(t, roles, emps[..i]).Ok?
    ensures PutEmployees(t, roles, emps[..i + 1]) ==
      PutEmployee(PutEmployees(t, roles, emps[..i]).value, roles, emps[i])
  {
    assert emps[..i + 1][..i] == emps[..i];
  }

  lemma {:induction false} FailedEmployeesStay(t: Staff, roles: map<string, Code>, emps: seq<Employee>,
                                               n: nat)
    requires Indexed(t) && n <= |emps| && PutEmployees(t, roles, emps[..n]).Err?
    ensures PutEmployees(t, roles, emps).Err?
    decreases |emps| - n
  {
    if n == |emps| {
      assert emps[..n] == emps;
    } else {
      assert emps[..n + 1][..n] == emps[..n];
      FailedEmployeesStay(t, roles, emps, n + 1);
    }
  }
}
