/** The employee hook: a read-through cache of the employee collection over the
    browser's durable key-value store, and the merge-and-persist update. */
module UseEmployees {
  import opened Wrappers
  import opened Records

  /** The store key under which the whole collection is kept. */
  const EmployeesKey := "employees"

  const FetchEmployeesError := "Error fetching employees"

  /** `Partial<Employee>`: a field that is present overrides the record's own. */
  datatype EmployeePatch = EmployeePatch(
    id: Option<string>,
    name: Option<string>,
    role: Option<string>,
    department: Option<string>,
    status: Option<string>,
    avatarUrl: Option<string>,
    phone: Option<string>,
    telegram: Option<string>)

  const EmptyPatch := EmployeePatch(None, None, None, None, None, None, None, None)

  function Pick(patched: Option<string>, own: string): string
  {
    if patched.Some? then patched.value else own
  }

  /** `{ ...employee, ...patch }`. */
  function Merge(e: Employee, patch: EmployeePatch): (r: Employee)
    ensures patch == EmptyPatch ==> r == e
    ensures patch.id.None? ==> r.id == e.id
  {
    Employee(
      Pick(patch.id, e.id),
      Pick(patch.name, e.name),
      Pick(patch.role, e.role),
      Pick(patch.department, e.department),
      Pick(patch.status, e.status),
      Pick(patch.avatarUrl, e.avatarUrl),
      Pick(patch.phone, e.phone),
      Pick(patch.telegram, e.telegram))
  }

  /** Merging an empty patch is the identity; merging a patch twice is merging it once;
      a field the patch carries takes the patch's value, every other field keeps its own. */
  lemma MergeLaws(e: Employee, patch: EmployeePatch)
    ensures Merge(e, EmptyPatch) == e
    ensures Merge(Merge(e, patch), patch) == Merge(e, patch)
    ensures Merge(e, patch).id == (if patch.id.Some? then patch.id.value else e.id)
    ensures Merge(e, patch).name == (if patch.name.Some? then patch.name.value else e.name)
    ensures Merge(e, patch).role == (if patch.role.Some? then patch.role.value else e.role)
    ensures Merge(e, patch).department == (if patch.department.Some? then patch.department.value else e.department)
    ensures Merge(e, patch).status == (if patch.status.Some? then patch.status.value else e.status)
    ensures Merge(e, patch).avatarUrl == (if patch.avatarUrl.Some? then patch.avatarUrl.value else e.avatarUrl)
    ensures Merge(e, patch).phone == (if patch.phone.Some? then patch.phone.value else e.phone)
    ensures Merge(e, patch).telegram == (if patch.telegram.Some? then patch.telegram.value else e.telegram)
  {
  }

  /** The update applied to the collection: every record with the id gets the patch. */
  function MergeById(es: seq<Employee>, id: string, patch: EmployeePatch): (r: seq<Employee>)
    ensures |r| == |es|
    ensures forall i :: 0 <= i < |es| && es[i].id == id ==> r[i] == Merge(es[i], patch)
    ensures forall i :: 0 <= i < |es| && es[i].id != id ==> r[i] == es[i]
  {
    if es == [] then []
    else [if es[0].id == id then Merge(es[0], patch) else es[0]] + MergeById(es[1..], id, patch)
  }

  /** An update for an id no record carries leaves the collection as it was. */
  lemma MergeByAbsentIdChangesNothing(es: seq<Employee>, id: string, patch: EmployeePatch)
    requires forall i :: 0 <= i < |es| ==> es[i].id != id
    ensures MergeById(es, id, patch) == es
  {
  }

  /** Updating the phone and telegram of an employee, as the profile page does, keeps
      every id and so keeps the record findable under its id with the new values. */
  lemma {:induction false} ContactUpdateKeepsRecordFindable(es: seq<Employee>, id: string, phone: string, telegram: string, e: Employee)
    requires FindEmployee(es, id) == Some(e)
    ensures FindEmployee(MergeById(es, id, EmployeePatch(None, None, None, None, None, None, Some(phone), Some(telegram))), id)
            == Some(e.(phone := phone, telegram := telegram))
  {
    var patch := EmployeePatch(None, None, None, None, None, None, Some(phone), Some(telegram));
    var p := (x: Employee) => x.id == id;
    var after := MergeById(es, id, patch);
    FindFirstIsFirst(es, p);
    var k :| IsFirst(es, p, k) && FindFirst(es, p) == Some(es[k]);
    assert IsFirst(after, p, k);
  }

  /** The browser's durable store, holding collections by key. */
  class LocalStore {
    var items: map<string, seq<Employee>>

    constructor ()
      ensures items == map[]
    {
      items := map[];
    }

    method GetItem(key: string) returns (r: Option<seq<Employee>>)
      ensures r.Some? <==> key in items
      ensures r.Some? ==> r.value == items[key]
    {
      r := if key in items then Some(items[key]) else None;
    }

    /** Replaces whatever was stored under the key. */
    method SetItem(key: string, value: seq<Employee>)
      modifies this
      ensures items == old(items)[key := value]
    {
      items := items[key := value];
    }
  }

  /** The hook's state cells. With a non-empty `id` it looks up one employee,
      otherwise it delivers the whole collection. */
  class EmployeesHook {
    const id: Option<string>
    const store: LocalStore
    var employee: Option<Employee>
    var employees: seq<Employee>
    var error: Option<string>
    var loading: bool
    /** The delayed cold-path fetch has been scheduled and has not yet run. */
    var timerPending: bool

    /** An empty id string counts as no id at all. */
    predicate SelectsOne()
    {
      id.Some? && id.value != ""
    }

    constructor (id: Option<string>, store: LocalStore)
      ensures this.id == id && this.store == store
      ensures employee == None && employees == [] && error == None && loading && !timerPending
    {
      this.id := id;
      this.store := store;
      employee := None;
      employees := [];
      error := None;
      loading := true;
      timerPending := false;
    }

    /** Hand a collection to the caller: the record with the id, or the whole collection. */
    method HandleEmployeeData(data: seq<Employee>)
      modifies this`employee, this`employees
      ensures SelectsOne() ==> employee == FindEmployee(data, id.value) && employees == old(employees)
      ensures !SelectsOne() ==> employees == data && employee == old(employee)
    {
      if SelectsOne() {
        employee := FindEmployee(data, id.value);
      } else {
        employees := data;
      }
    }

    /** The synchronous part of the load effect. A stored collection is delivered at
        once (warm path) and the store is not written; otherwise the fetch is scheduled
        (cold path) and the hook stays loading. */
    method StartLoad()
      modifies this
      ensures error == None
      ensures EmployeesKey in store.items ==>
        !loading && !timerPending &&
        (SelectsOne() ==> employee == FindEmployee(store.items[EmployeesKey], id.value) && employees == old(employees)) &&
        (!SelectsOne() ==> employees == store.items[EmployeesKey] && employee == old(employee))
      ensures EmployeesKey !in store.items ==>
        loading && timerPending && employee == old(employee) && employees == old(employees)
    {
      loading := true;
      error := None;
      var stored := store.GetItem(EmployeesKey);
      if stored.Some? {
        HandleEmployeeData(stored.value);
        loading := false;
        timerPending := false;
      } else {
        timerPending := true;
      }
    }

    /** The delayed cold-path fetch: deliver the data set and persist it unchanged, or
        record the failure and persist nothing; loading ends either way. */
    method FinishColdLoad(source: Fetch<seq<Employee>>)
      requires timerPending
      modifies this, store
      ensures !loading && !timerPending
      ensures source.Fetched? ==>
        store.items == old(store.items)[EmployeesKey := source.data] && error == old(error) &&
        (SelectsOne() ==> employee == FindEmployee(source.data, id.value) && employees == old(employees)) &&
        (!SelectsOne() ==> employees == source.data && employee == old(employee))
      ensures source.FetchFailed? ==>
        store.items == old(store.items) && error == Some(FetchEmployeesError) &&
        employee == old(employee) && employees == old(employees)
    {
      match source {
        case Fetched(data) =>
          HandleEmployeeData(data);
          store.SetItem(EmployeesKey, data);
        case FetchFailed =>
          error := Some(FetchEmployeesError);
      }
      loading := false;
      timerPending := false;
    }

    /** Merge a patch into the record with the id and write the whole collection back. */
    method UpdateEmployee(targetId: string, patch: EmployeePatch)
      modifies this`employees, store
      ensures employees == MergeById(old(employees), targetId, patch)
      ensures store.items == old(store.items)[EmployeesKey := employees]
    {
      var updated := MergeById(employees, targetId, patch);
      store.SetItem(EmployeesKey, updated);
      employees := updated;
    }
  }

  /** A cold load that succeeds fills the store, so a later hook over the same store
      takes the warm path and sees the same collection without fetching. */
  method ColdThenWarm(store: LocalStore, data: seq<Employee>) returns (first: seq<Employee>, second: seq<Employee>)
    requires EmployeesKey !in store.items
    modifies store
    ensures first == data && second == data
    ensures store.items == old(store.items)[EmployeesKey := data]
  {
    var cold := new EmployeesHook(None, store);
    cold.StartLoad();
    cold.FinishColdLoad(Fetched(data));
    first := cold.employees;
    var warm := new EmployeesHook(None, store);
    warm.StartLoad();
    assert !warm.timerPending;
    second := warm.employees;
  }
}
