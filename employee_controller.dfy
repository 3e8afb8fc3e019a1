/** The employee handlers of `server/controllers/employee.controller.js`:
    adding, listing, fetching, updating and deleting employees, and the
    staff sign-in that takes the employee number or the e-mail as user name
    and the national identity card number (NIC) as password. */
module EmployeeController {
  import opened Wrappers
  import opened Text

  /** A JSON value an employee field can hold. */
  datatype Scalar = Str(s: string) | Num(n: int)

  /** The ten fields `addEmpoyee` copies from the request body. */
  const EmployeeFields: set<string> :=
    {"empId", "name", "contactNo", "DOB", "address", "email", "NIC", "empRole", "maritalStatus", "gender"}

  /** A stored employee: its database id and its fields. */
  datatype Employee = Employee(id: nat, fields: map<string, Scalar>)

  const NotFound := "Employee not found!"
  const CredentialsRequired := "Username and password are required"
  const SignInNotFound := "Employee not found"
  const InvalidCredentials := "Invalid credentials"
  const ServerError := "Internal server error"
  const AdminRole := "admin"

  /** The employee fields of a request body; every other key is dropped. */
  function Pick(body: map<string, Scalar>): (r: map<string, Scalar>)
    ensures r.Keys == body.Keys * EmployeeFields
    ensures forall k :: k in r ==> r[k] == body[k]
  {
    map k | k in body.Keys * EmployeeFields :: body[k]
  }

  /** The employee's field `key` holds the string `text`. */
  predicate Holds(e: Employee, key: string, text: string) {
    key in e.fields && e.fields[key] == Str(text)
  }

  /** `findOne({key: text})`: the first employee whose field matches. */
  function FindFirst(docs: seq<Employee>, key: string, text: string): (r: Option<nat>)
    ensures r.Some? ==> r.value < |docs| && Holds(docs[r.value], key, text)
    ensures r.Some? ==> forall j :: 0 <= j < r.value ==> !Holds(docs[j], key, text)
    ensures r.None? ==> forall j :: 0 <= j < |docs| ==> !Holds(docs[j], key, text)
  {
    if docs == [] then None
    else if Holds(docs[0], key, text) then Some(0)
    else match FindFirst(docs[1..], key, text)
      case None => None
      case Some(k) => Some(k + 1)
  }

  /** The position of the employee with database id `id`. */
  function FindId(docs: seq<Employee>, id: nat): (r: Option<nat>)
    ensures r.Some? ==> r.value < |docs| && docs[r.value].id == id
    ensures r.None? ==> forall j :: 0 <= j < |docs| ==> docs[j].id != id
  {
    if docs == [] then None
    else if docs[0].id == id then Some(0)
    else match FindId(docs[1..], id)
      case None => None
      case Some(k) => Some(k + 1)
  }

  /** `employee.NIC.toString()`, absent when the employee has no NIC (the
      call then throws). */
  function NicText(e: Employee): (r: Option<string>)
    ensures r.Some? <==> "NIC" in e.fields
  {
    if "NIC" !in e.fields then None
    else match e.fields["NIC"]
      case Str(s) => Some(s)
      case Num(n) => Some(IntToString(n))
  }

  /** What the issued token claims. */
  datatype Claims = Claims(id: nat, empId: Option<Scalar>, name: Option<Scalar>, role: string)

  /** A successful sign-in: the employee record and the token's claims. */
  datatype Session = Session(employee: Employee, claims: Claims)

  function Field(e: Employee, key: string): Option<Scalar> {
    if key in e.fields then Some(e.fields[key]) else None
  }

  /** The employee a sign-in with user name `u` looks at: the first with
      that employee number, else the first with that e-mail. */
  function LookUp(docs: seq<Employee>, u: string): (r: Option<nat>)
    ensures r.Some? ==> r.value < |docs|
    ensures r.None? <==>
      forall j :: 0 <= j < |docs| ==> !Holds(docs[j], "empId", u) && !Holds(docs[j], "email", u)
    ensures (exists j :: 0 <= j < |docs| && Holds(docs[j], "empId", u)) ==>
      r.Some? && Holds(docs[r.value], "empId", u)
      && forall j :: 0 <= j < r.value ==> !Holds(docs[j], "empId", u)
    ensures (forall j :: 0 <= j < |docs| ==> !Holds(docs[j], "empId", u)) && r.Some? ==>
      Holds(docs[r.value], "email", u)
      && forall j :: 0 <= j < r.value ==> !Holds(docs[j], "email", u)
  {
    var byId := FindFirst(docs, "empId", u);
    if byId.Some? then byId else FindFirst(docs, "email", u)
  }

  /** The password a sign-in with user name `u` must present, if the
      employee it finds has a NIC. */
  function ExpectedPassword(docs: seq<Employee>, u: string): Option<string> {
    var k := LookUp(docs, u);
    if k.Some? then NicText(docs[k.value]) else None
  }

  class EmployeeStore {
    var docs: seq<Employee>
    var nextId: nat

    /** Ids are distinct and below `nextId`; only employee fields are stored. */
    ghost predicate Valid()
      reads this
    {
      && (forall i :: 0 <= i < |docs| ==> docs[i].id < nextId && docs[i].fields.Keys <= EmployeeFields)
      && (forall i, j :: 0 <= i < j < |docs| ==> docs[i].id != docs[j].id)
    }

    constructor()
      ensures Valid() && docs == [] && nextId == 0
    {
      docs := [];
      nextId := 0;
    }

    /** `addEmpoyee`: stores exactly the ten employee fields of the body. */
    method AddEmployee(body: map<string, Scalar>) returns (r: Reply<Employee>)
      requires Valid()
      modifies this
      ensures Valid()
      ensures r == Ok(200, Employee(old(nextId), Pick(body)))
      ensures docs == old(docs) + [r.value] && nextId == old(nextId) + 1
    {
      var e := Employee(nextId, Pick(body));
      docs := docs + [e];
      nextId := nextId + 1;
      r := Ok(200, e);
    }

    /** `getEmployee`: the whole collection; an empty one is still a list,
        so the not-found branch is never taken. */
    method GetEmployees() returns (r: Reply<seq<Employee>>)
      ensures r == Ok(200, docs)
    {
      r := Ok(200, docs);
    }

    /** `getUpdateEmployee`: one employee by id. */
    method GetEmployeeById(id: nat) returns (r: Reply<Employee>)
      ensures r.Ok? <==> exists i :: 0 <= i < |docs| && docs[i].id == id
      ensures r.Ok? ==> r.code == 200 && r.value in docs && r.value.id == id
      ensures r.Fail? ==> r == Fail(404, NotFound)
    {
      var k := FindId(docs, id);
      if k.None? {
        return Fail(404, NotFound);
      }
      r := Ok(200, docs[k.value]);
    }

    /** `updateEmployee`: overwrites the employee fields the body carries
        and keeps the others. */
    method UpdateEmployee(id: nat, body: map<string, Scalar>) returns (r: Reply<Employee>)
      requires Valid()
      modifies this
      ensures Valid() && nextId == old(nextId)
      ensures FindId(old(docs), id).None? ==> r == Fail(404, NotFound) && docs == old(docs)
      ensures FindId(old(docs), id).Some? ==>
        var k := FindId(old(docs), id).value;
        var e := Employee(id, old(docs)[k].fields + Pick(body));
        r == Ok(200, e) && docs == old(docs)[k := e]
    {
      var found := FindId(docs, id);
      if found.None? {
        return Fail(404, NotFound);
      }
      var k := found.value;
      var e := Employee(id, docs[k].fields + Pick(body));
      docs := docs[k := e];
      r := Ok(200, e);
    }

    /** `deleteEmployee`: removes the employee with that id. */
    method DeleteEmployee(id: nat) returns (r: Reply<Employee>)
      requires Valid()
      modifies this
      ensures Valid() && nextId == old(nextId)
      ensures FindId(old(docs), id).None? ==> r == Fail(404, NotFound) && docs == old(docs)
      ensures FindId(old(docs), id).Some? ==>
        var k := FindId(old(docs), id).value;
        r == Ok(200, old(docs)[k]) && docs == old(docs)[..k] + old(docs)[k + 1..]
      ensures forall e :: e in docs <==> e in old(docs) && e.id != id
    {
      var found := FindId(docs, id);
      if found.None? {
        return Fail(404, NotFound);
      }
      var k := found.value;
      r := Ok(200, docs[k]);
      RemoveOnlyThat(docs, k);
      docs := docs[..k] + docs[k + 1..];
    }

    /** `signinEmployee`: the user name is looked up as an employee number,
        then as an e-mail; the password must be the NIC's text. */
    method SignIn(username: Option<string>, password: Option<string>) returns (r: Reply<Session>)
      ensures r.Fail? && r.code == 400 <==> !Truthy(username) || !Truthy(password)
      ensures r == Fail(400, CredentialsRequired) || r == Fail(404, SignInNotFound)
        || r == Fail(401, InvalidCredentials) || r == Fail(500, ServerError) || r.Ok?
      ensures r.Fail? && r.code == 404 <==>
        Truthy(username) && Truthy(password)
        && forall j :: 0 <= j < |docs| ==> !Holds(docs[j], "empId", username.value) && !Holds(docs[j], "email", username.value)
      ensures Truthy(username) && FindFirst(docs, "empId", username.value).Some? && r.Ok? ==>
        r.value.employee == docs[FindFirst(docs, "empId", username.value).value]
      ensures r.Ok? ==>
        && r.code == 200 && r.value.employee in docs
        && (Holds(r.value.employee, "empId", username.value) || Holds(r.value.employee, "email", username.value))
        && NicText(r.value.employee) == Some(password.value)
        && r.value.claims == Claims(r.value.employee.id, Field(r.value.employee, "empId"),
                                    Field(r.value.employee, "name"), AdminRole)
      ensures r.Fail? && r.code == 401 <==>
        Truthy(username) && Truthy(password) && ExpectedPassword(docs, username.value).Some?
        && ExpectedPassword(docs, username.value) != Some(password.value)
      ensures r.Ok? <==>
        Truthy(username) && Truthy(password) && ExpectedPassword(docs, username.value) == Some(password.value)
    {
      if !Truthy(username) || !Truthy(password) {
        return Fail(400, CredentialsRequired);
      }
      var employee := FindFirst(docs, "empId", username.value);
      if employee.None? {
        employee := FindFirst(docs, "email", username.value);
      }
      if employee.None? {
        return Fail(404, SignInNotFound);
      }
      var e := docs[employee.value];
      var nic := NicText(e);
      if nic.None? {
        return Fail(500, ServerError);
      }
      if password.value != nic.value {
        return Fail(401, InvalidCredentials);
      }
      var claims := Claims(e.id, Field(e, "empId"), Field(e, "name"), AdminRole);
      r := Ok(200, Session(e, claims));
    }
  }

  /** Removing position `k` keeps every other employee and drops exactly
      the one with that id, when ids are distinct. */
  lemma RemoveOnlyThat(docs: seq<Employee>, k: nat)
    requires k < |docs|
    requires forall i, j :: 0 <= i < j < |docs| ==> docs[i].id != docs[j].id
    ensures forall e :: e in docs[..k] + docs[k + 1..] <==> e in docs && e.id != docs[k].id
  {
    forall e | e in docs && e.id != docs[k].id
      ensures e in docs[..k] + docs[k + 1..]
    {
      var i :| 0 <= i < |docs| && docs[i] == e;
      if i < k {
        assert docs[..k][i] == e;
      } else {
        assert docs[k + 1..][i - k - 1] == e;
      }
    }
  }

  /** The seeded employee's NIC as text. */
  lemma SeedNicText()
    ensures IntToString(1234567890) == "1234567890"
  {
    NatToStringSnoc(1, 2);
    NatToStringSnoc(12, 3);
    NatToStringSnoc(123, 4);
    NatToStringSnoc(1234, 5);
    NatToStringSnoc(12345, 6);
    NatToStringSnoc(123456, 7);
    NatToStringSnoc(1234567, 8);
    NatToStringSnoc(12345678, 9);
    NatToStringSnoc(123456789, 0);
  }

  /** The employee `server/test-employee-login.js` seeds. */
  const SeedEmployee: map<string, Scalar> :=
    map["empId" := Str("EMP001"), "name" := Str("Piumali Test"), "contactNo" := Num(771234567),
      "DOB" := Str("1990-01-01"), "address" := Str("Test Address"), "email" := Str("piumali698@gmail.com"),
      "NIC" := Num(1234567890), "empRole" := Str("Admin"), "maritalStatus" := Str("Single"),
      "gender" := Str("Female")]

  /** Every key of the seed is an employee field, so adding it stores the
      seed unchanged. */
  lemma SeedStoredWhole()
    ensures Pick(SeedEmployee) == SeedEmployee
  {
    assert SeedEmployee.Keys <= EmployeeFields;
    assert SeedEmployee.Keys * EmployeeFields == SeedEmployee.Keys;
  }

  /** The stored seed is found by its e-mail and by its employee number,
      and its NIC reads as "1234567890". */
  lemma SeedFields()
    ensures Holds(Employee(0, SeedEmployee), "email", "piumali698@gmail.com")
    ensures Holds(Employee(0, SeedEmployee), "empId", "EMP001")
    ensures !Holds(Employee(0, SeedEmployee), "empId", "piumali698@gmail.com")
    ensures NicText(Employee(0, SeedEmployee)) == Some("1234567890")
  {
    SeedNicText();
  }

  /** The seeded employee, added to an empty collection, signs in with its
      e-mail and its NIC, as an administrator. */
  method SeededLoginWalkthrough() returns (ok: Reply<Session>)
    ensures ok.Ok? && ok.code == 200
    ensures ok.value.employee == Employee(0, SeedEmployee) && ok.value.claims.role == AdminRole
  {
    var store := new EmployeeStore();
    var added := store.AddEmployee(SeedEmployee);
    SeedStoredWhole();
    SeedFields();
    var e := Employee(0, SeedEmployee);
    assert store.docs == [e];
    assert FindFirst(store.docs, "empId", "piumali698@gmail.com").None?;
    ok := store.SignIn(Some("piumali698@gmail.com"), Some("1234567890"));
  }

  /** The seeded employee found by its employee number is refused when
      the password is not its NIC. */
  method SeededWrongPasswordWalkthrough() returns (refused: Reply<Session>)
    ensures refused == Fail(401, InvalidCredentials)
  {
    var store := new EmployeeStore();
    var added := store.AddEmployee(SeedEmployee);
    SeedStoredWhole();
    SeedFields();
    var e := Employee(0, SeedEmployee);
    assert store.docs == [e];
    assert FindFirst(store.docs, "empId", "EMP001") == Some(0);
    refused := store.SignIn(Some("EMP001"), Some("123"));
  }
}
