/** The dashboard's two kinds of record and the first-match lookup used by the task
    board, the employee hook and the profile page. */
module Records {
  import opened Wrappers

  /** A task card on the board. `details` stands for the task's remaining named
      fields, which the board never inspects but must carry along unchanged. */
  datatype Task = Task(id: string, title: string, status: string, details: map<string, string>)

  /** A member of the team. */
  datatype Employee = Employee(
    id: string,
    name: string,
    role: string,
    department: string,
    status: string,
    avatarUrl: string,
    phone: string,
    telegram: string)

  /** Index k holds the first element of s that satisfies p. */
  ghost predicate IsFirst<T>(s: seq<T>, p: T -> bool, k: int)
  {
    0 <= k < |s| && p(s[k]) && forall j :: 0 <= j < k ==> !p(s[j])
  }

  /** `Array.prototype.find`: the first element satisfying p, if any. */
  function FindFirst<T>(s: seq<T>, p: T -> bool): (r: Option<T>)
    ensures r.None? <==> forall i :: 0 <= i < |s| ==> !p(s[i])
    ensures r.Some? ==> r.value in s && p(r.value)
    ensures forall k :: IsFirst(s, p, k) ==> r == Some(s[k])
  {
    if s == [] then None
    else if p(s[0]) then Some(s[0])
    else
      var r := FindFirst(s[1..], p);
      assert forall k :: IsFirst(s, p, k) ==> IsFirst(s[1..], p, k - 1);
      r
  }

  /** A found element is the first one satisfying p. */
  lemma {:induction false} FindFirstIsFirst<T>(s: seq<T>, p: T -> bool)
    requires FindFirst(s, p).Some?
    ensures exists k :: IsFirst(s, p, k) && FindFirst(s, p) == Some(s[k])
  {
    if p(s[0]) {
      assert IsFirst(s, p, 0);
    } else {
      FindFirstIsFirst(s[1..], p);
      var k :| IsFirst(s[1..], p, k) && FindFirst(s[1..], p) == Some(s[1..][k]);
      assert IsFirst(s, p, k + 1);
    }
  }

  /** The board's lookup of the dragged task: the first task with that id. */
  function FindTask(tasks: seq<Task>, id: string): Option<Task>
  {
    FindFirst(tasks, (t: Task) => t.id == id)
  }

  /** The employee hook's and the profile page's lookup: the first employee with that id. */
  function FindEmployee(employees: seq<Employee>, id: string): Option<Employee>
  {
    FindFirst(employees, (e: Employee) => e.id == id)
  }

  /** No two tasks share an id. */
  ghost predicate UniqueTaskIds(tasks: seq<Task>)
  {
    forall i, j :: 0 <= i < j < |tasks| ==> tasks[i].id != tasks[j].id
  }
}
