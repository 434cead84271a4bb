/** The team page: the employee list filtered by a case-insensitive name search and a
    department selector, and the projection that drops the avatar before export. */
module TeamPage {
  import opened Records
  import Text

  /** The department selector's wildcard. */
  const AllDepartments := "All"

  /** An employee as exported: every field except the avatar URL. */
  datatype FilteredEmployee = FilteredEmployee(
    id: string,
    name: string,
    role: string,
    department: string,
    status: string,
    phone: string,
    telegram: string)

  predicate MatchesName(e: Employee, searchTerm: string)
  {
    Text.Contains(Text.Lower(e.name), Text.Lower(searchTerm))
  }

  predicate MatchesDepartment(e: Employee, department: string)
  {
    department == AllDepartments || e.department == department
  }

  predicate Matches(e: Employee, searchTerm: string, department: string)
    ensures searchTerm == "" && department == AllDepartments ==> Matches(e, searchTerm, department)
    ensures Matches(e, searchTerm, department) && department != AllDepartments ==> e.department == department
  {
    MatchesName(e, searchTerm) && MatchesDepartment(e, department)
  }

  /** `r` can be obtained from `s` by deleting elements, keeping the order of the rest. */
  ghost predicate IsSubsequence<T>(r: seq<T>, s: seq<T>)
  {
    if r == [] then true
    else if s == [] then false
    else (r[0] == s[0] && IsSubsequence(r[1..], s[1..])) || IsSubsequence(r, s[1..])
  }

  /** The employees shown on the page: exactly those that match, in their original order. */
  function FilterEmployees(employees: seq<Employee>, searchTerm: string, department: string): (r: seq<Employee>)
    ensures |r| <= |employees|
    ensures IsSubsequence(r, employees)
    ensures forall e :: e in r <==> e in employees && Matches(e, searchTerm, department)
    ensures forall e :: multiset(r)[e] == if Matches(e, searchTerm, department) then multiset(employees)[e] else 0
  {
    if employees == [] then []
    else
      assert employees == [employees[0]] + employees[1..];
      var rest := FilterEmployees(employees[1..], searchTerm, department);
      if Matches(employees[0], searchTerm, department) then [employees[0]] + rest else rest
  }

  /** With the department wildcard, only the name search decides; with a specific
      department every shown employee belongs to it. */
  lemma DepartmentFilter(employees: seq<Employee>, searchTerm: string, department: string)
    ensures department == AllDepartments ==>
      forall e :: e in FilterEmployees(employees, searchTerm, department) <==> e in employees && MatchesName(e, searchTerm)
    ensures department != AllDepartments ==>
      forall e :: e in FilterEmployees(employees, searchTerm, department) ==> e.department == department
  {
  }

  /** Every shown employee's lower-cased name contains the lower-cased search term. */
  lemma ShownNamesContainTerm(employees: seq<Employee>, searchTerm: string, department: string, e: Employee)
    requires e in FilterEmployees(employees, searchTerm, department)
    ensures exists i :: Text.OccursAt(Text.Lower(e.name), Text.Lower(searchTerm), i)
  {
    Text.ContainsIffOccurs(Text.Lower(e.name), Text.Lower(searchTerm));
  }

  /** With no search term and the wildcard the page shows everyone, in order. */
  lemma {:induction false} NoFilterShowsEveryone(employees: seq<Employee>)
    ensures FilterEmployees(employees, "", AllDepartments) == employees
  {
    if employees != [] {
      assert Text.Lower("") == "";
      assert "" <= Text.Lower(employees[0].name);
      NoFilterShowsEveryone(employees[1..]);
    }
  }

  /** The export row of one employee. */
  function Strip(e: Employee): (row: FilteredEmployee)
    ensures WithAvatar(row, e.avatarUrl) == e
  {
    FilteredEmployee(e.id, e.name, e.role, e.department, e.status, e.phone, e.telegram)
  }

  /** An export row with an avatar URL put back. */
  function WithAvatar(row: FilteredEmployee, avatarUrl: string): Employee
  {
    Employee(row.id, row.name, row.role, row.department, row.status, avatarUrl, row.phone, row.telegram)
  }

  /** Two employees export to the same row exactly when they differ at most in the avatar. */
  lemma StripForgetsOnlyTheAvatar(a: Employee, b: Employee)
    ensures Strip(a) == Strip(b) <==> a == b.(avatarUrl := a.avatarUrl)
  {
  }

  /** The rows handed to the CSV export: one per shown employee, in the same order. */
  function ExportRows(shown: seq<Employee>): (rows: seq<FilteredEmployee>)
    ensures |rows| == |shown|
    ensures forall i :: 0 <= i < |shown| ==> rows[i] == Strip(shown[i])
  {
    if shown == [] then [] else [Strip(shown[0])] + ExportRows(shown[1..])
  }
}
