/** The task board: a committed task collection (owned by the task loader hook),
    a shadow copy that shows optimistic moves, and a single notification slot.
    A drag-and-drop of a task onto a column moves the task optimistically and then
    confirms the move, committing it or rolling the shadow back. */
module TaskBoard {
  import opened Wrappers
  import opened Records
  import Text
  import UseTasks

  datatype Severity = Success | Error

  /** What the notification slot shows. */
  datatype NotificationData = NotificationData(open: bool, message: string, severity: Severity)

  /** A notification waiting for its display timer. */
  datatype Notice = Notice(message: string, severity: Severity)

  /** The end of a drag: the dragged task's id and the id of the drop target, if any.
      Column targets carry the column's status as their id. */
  datatype Drop = Drop(active: string, over: Option<string>)

  /** The answer of the task server, which only the server-confirmed task consults. */
  datatype ServerReply = Confirmed | Rejected(reason: string)

  /** What the guards of the drop handler decide. */
  datatype DropPlan = Ignore | Move(task: Task, to: string)

  /** Everything a drop can touch: the committed tasks, the shadow copy, the
      notification slot and the notifications whose display timer is running. */
  datatype BoardState = BoardState(
    tasks: seq<Task>,
    shadow: seq<Task>,
    notification: NotificationData,
    timers: seq<Notice>)

  /** The one task whose moves are confirmed by the task server. */
  const ServerTaskId := "1"

  const Hidden := NotificationData(false, "", Success)

  /** Every task with the given id gets the given status; nothing else changes. */
  function WithStatus(ts: seq<Task>, id: string, status: string): (r: seq<Task>)
    ensures |r| == |ts|
    ensures forall i :: 0 <= i < |ts| ==>
              r[i].id == ts[i].id && r[i].title == ts[i].title && r[i].details == ts[i].details
    ensures forall i :: 0 <= i < |ts| ==>
              r[i].status == (if ts[i].id == id then status else ts[i].status)
  {
    if ts == [] then []
    else
      var head := if ts[0].id == id then ts[0].(status := status) else ts[0];
      [head] + WithStatus(ts[1..], id, status)
  }

  /** `after` is `before` with the status of exactly the records carrying `id` set to `to`. */
  ghost predicate OnlyStatusOf(before: seq<Task>, after: seq<Task>, id: string, to: string)
  {
    |after| == |before| &&
    forall i :: 0 <= i < |before| ==>
      after[i] == (if before[i].id == id then before[i].(status := to) else before[i])
  }

  /** The shadow copy lines up with the committed tasks record by record and may
      differ from them only in statuses. */
  ghost predicate Aligned(tasks: seq<Task>, shadow: seq<Task>)
  {
    |tasks| == |shadow| &&
    forall i :: 0 <= i < |tasks| ==>
      tasks[i].id == shadow[i].id && tasks[i].title == shadow[i].title &&
      tasks[i].details == shadow[i].details
  }

  function MovedNotice(task: Task, to: string): Notice
  {
    Notice("Task \"" + task.title + "\" moved to " + to, Success)
  }

  function FailedNotice(task: Task, reason: string): Notice
  {
    Notice("Failed to move task \"" + task.title + "\" " + reason, Error)
  }

  /** The guards of the drop handler: no target, a drop onto itself, an unknown
      task and a drop into the task's own committed column are all ignored. */
  function Plan(tasks: seq<Task>, drop: Drop): (plan: DropPlan)
    ensures plan.Move? ==> FindTask(tasks, drop.active) == Some(plan.task)
    ensures plan.Move? ==>
      drop.over == Some(plan.to) && plan.to != drop.active &&
      plan.task in tasks && plan.task.id == drop.active && plan.task.status != plan.to
    ensures plan.Ignore? && drop.over.Some? && drop.active != drop.over.value ==>
      forall t :: t in tasks && t.id == drop.active && FindTask(tasks, drop.active) == Some(t) ==>
        t.status == drop.over.value
  {
    if drop.over.None? || drop.active == drop.over.value then Ignore
    else
      match FindTask(tasks, drop.active)
      case None => Ignore
      case Some(task) => if task.status == drop.over.value then Ignore else Move(task, drop.over.value)
  }

  /** Showing a notification hides the current one at once (keeping its text) and
      starts the timer that will display the new one. */
  function Show(b: BoardState, n: Notice): (r: BoardState)
    ensures !r.notification.open
    ensures r.notification.message == b.notification.message && r.notification.severity == b.notification.severity
    ensures r.timers == b.timers + [n] && r.tasks == b.tasks && r.shadow == b.shadow
  {
    b.(notification := b.notification.(open := false), timers := b.timers + [n])
  }

  /** The oldest running display timer fires and its notice becomes visible. */
  function Fire(b: BoardState): (r: BoardState)
    requires b.timers != []
    ensures r.notification.open
    ensures Notice(r.notification.message, r.notification.severity) == b.timers[0]
    ensures [b.timers[0]] + r.timers == b.timers && r.tasks == b.tasks && r.shadow == b.shadow
  {
    b.(notification := NotificationData(true, b.timers[0].message, b.timers[0].severity),
       timers := b.timers[1..])
  }

  /** The effect that copies the committed tasks into the shadow whenever they change. */
  function Sync(b: BoardState): (r: BoardState)
    ensures r.shadow == r.tasks == b.tasks
    ensures r.notification == b.notification && r.timers == b.timers
  {
    b.(shadow := b.tasks)
  }

  /** One complete drop: guards, optimistic update of the shadow, confirmation,
      then commit or rollback, and the notification. */
  function Step(b: BoardState, drop: Drop, reply: ServerReply): (r: BoardState)
    ensures Plan(b.tasks, drop).Ignore? ==> r == b
    ensures Plan(b.tasks, drop).Move? ==>
      !r.notification.open && |r.timers| == |b.timers| + 1 && r.timers[..|b.timers|] == b.timers &&
      |r.tasks| == |b.tasks|
  {
    match Plan(b.tasks, drop)
    case Ignore => b
    case Move(task, to) =>
      var shadow := WithStatus(b.shadow, task.id, to);
      if task.id == ServerTaskId then
        match reply
        case Confirmed => Show(b.(shadow := shadow), MovedNotice(task, to))
        case Rejected(reason) => Show(b.(shadow := b.tasks), FailedNotice(task, reason))
      else
        Show(b.(shadow := shadow, tasks := WithStatus(b.tasks, drop.active, to)), MovedNotice(task, to))
  }

  lemma WithStatusChangesOnlyThatId(ts: seq<Task>, id: string, to: string)
    ensures OnlyStatusOf(ts, WithStatus(ts, id, to), id, to)
  {
  }

  /** A drop with no target, or onto the dragged task itself, changes nothing. */
  lemma MissingOrSelfTargetIsIgnored(b: BoardState, drop: Drop, reply: ServerReply)
    requires drop.over.None? || drop.over == Some(drop.active)
    ensures Step(b, drop, reply) == b
  {
  }

  /** Dragging an id that is not among the committed tasks changes nothing. */
  lemma UnknownTaskIsIgnored(b: BoardState, drop: Drop, reply: ServerReply)
    requires forall i :: 0 <= i < |b.tasks| ==> b.tasks[i].id != drop.active
    ensures Step(b, drop, reply) == b
  {
  }

  /** Dropping a task into the column of its committed status changes nothing. */
  lemma SameColumnIsIgnored(b: BoardState, drop: Drop, reply: ServerReply, task: Task)
    requires FindTask(b.tasks, drop.active) == Some(task)
    requires drop.over == Some(task.status)
    ensures Step(b, drop, reply) == b
  {
  }

  /** A moved ordinary task: committed tasks and shadow both adopt the new status for
      that id only, and a success notice naming the title and the column is queued. */
  lemma OrdinaryMoveIsCommitted(b: BoardState, drop: Drop, reply: ServerReply, task: Task)
    requires drop.over.Some? && drop.active != drop.over.value
    requires FindTask(b.tasks, drop.active) == Some(task)
    requires task.status != drop.over.value && task.id != ServerTaskId
    ensures var after := Step(b, drop, reply);
      OnlyStatusOf(b.tasks, after.tasks, drop.active, drop.over.value) &&
      OnlyStatusOf(b.shadow, after.shadow, drop.active, drop.over.value) &&
      after.notification == b.notification.(open := false) &&
      |after.timers| == |b.timers| + 1 && after.timers[..|b.timers|] == b.timers &&
      after.timers[|b.timers|].severity == Success &&
      Text.Contains(after.timers[|b.timers|].message, task.title) &&
      Text.Contains(after.timers[|b.timers|].message, drop.over.value)
  {
    var to := drop.over.value;
    assert task.id == drop.active;
    assert Plan(b.tasks, drop) == Move(task, to);
    var committed := WithStatus(b.tasks, drop.active, to);
    var shadow := WithStatus(b.shadow, task.id, to);
    assert Step(b, drop, reply) == Show(b.(shadow := shadow, tasks := committed), MovedNotice(task, to));
    WithStatusChangesOnlyThatId(b.tasks, drop.active, to);
    WithStatusChangesOnlyThatId(b.shadow, drop.active, to);
    MovedNoticeMentions(task, to);
  }

  /** The success notice names the task's title and the destination column. */
  lemma MovedNoticeMentions(task: Task, to: string)
    ensures MovedNotice(task, to).severity == Success
    ensures Text.Contains(MovedNotice(task, to).message, task.title)
    ensures Text.Contains(MovedNotice(task, to).message, to)
  {
    Text.ContainsInfix("Task \"", task.title, "\" moved to " + to);
    assert "Task \"" + task.title + "\" moved to " + to == "Task \"" + task.title + ("\" moved to " + to);
    Text.ContainsSuffix("Task \"" + task.title + "\" moved to ", to);
  }

  /** A confirmed move of the server task shows the new status in the shadow only:
      the committed tasks stay as they were. */
  lemma ServerMoveConfirmedStaysUncommitted(b: BoardState, drop: Drop, task: Task)
    requires drop.over.Some? && drop.active != drop.over.value
    requires FindTask(b.tasks, drop.active) == Some(task)
    requires task.status != drop.over.value && task.id == ServerTaskId
    ensures var after := Step(b, drop, Confirmed);
      after.tasks == b.tasks &&
      OnlyStatusOf(b.shadow, after.shadow, ServerTaskId, drop.over.value) &&
      after.timers == b.timers + [MovedNotice(task, drop.over.value)]
  {
  }

  /** A rejected move of the server task reverts the whole shadow to the committed
      tasks and queues an error notice that carries the server's reason. */
  lemma ServerMoveRejectedRollsBack(b: BoardState, drop: Drop, task: Task, reason: string)
    requires drop.over.Some? && drop.active != drop.over.value
    requires FindTask(b.tasks, drop.active) == Some(task)
    requires task.status != drop.over.value && task.id == ServerTaskId
    ensures var after := Step(b, drop, Rejected(reason));
      after.shadow == b.tasks && after.tasks == b.tasks &&
      after.notification == b.notification.(open := false) &&
      |after.timers| == |b.timers| + 1 && after.timers[..|b.timers|] == b.timers &&
      after.timers[|b.timers|].severity == Error &&
      Text.Contains(after.timers[|b.timers|].message, task.title) &&
      Text.Contains(after.timers[|b.timers|].message, reason)
  {
    var after := Step(b, drop, Rejected(reason));
    assert after.timers == b.timers + [FailedNotice(task, reason)];
    FailedNoticeMentions(task, reason);
  }

  /** The error notice names the task's title and carries the server's reason. */
  lemma FailedNoticeMentions(task: Task, reason: string)
    ensures FailedNotice(task, reason).severity == Error
    ensures Text.Contains(FailedNotice(task, reason).message, task.title)
    ensures Text.Contains(FailedNotice(task, reason).message, reason)
  {
    Text.ContainsInfix("Failed to move task \"", task.title, "\" " + reason);
    assert "Failed to move task \"" + task.title + "\" " + reason
        == "Failed to move task \"" + task.title + ("\" " + reason);
    Text.ContainsSuffix("Failed to move task \"" + task.title + "\" ", reason);
  }

  /** Every drop keeps the shadow aligned with the committed tasks and keeps ids unique. */
  lemma StepKeepsShadowAligned(b: BoardState, drop: Drop, reply: ServerReply)
    requires Aligned(b.tasks, b.shadow)
    requires UniqueTaskIds(b.tasks)
    ensures var after := Step(b, drop, reply);
      Aligned(after.tasks, after.shadow) && UniqueTaskIds(after.tasks) && UniqueTaskIds(after.shadow)
  {
    assert UniqueTaskIds(b.shadow) by {
      forall i, j | 0 <= i < j < |b.shadow| ensures b.shadow[i].id != b.shadow[j].id {
        assert b.tasks[i].id != b.tasks[j].id;
      }
    }
    match Plan(b.tasks, drop)
    case Ignore =>
    case Move(task, to) =>
      var shadow := WithStatus(b.shadow, task.id, to);
      WithStatusKeepsIds(b.shadow, task.id, to);
      if task.id != ServerTaskId {
        WithStatusKeepsIds(b.tasks, drop.active, to);
      }
  }

  /** The status rewrite keeps the id, title and details of every record. */
  lemma WithStatusKeepsIds(ts: seq<Task>, id: string, to: string)
    requires UniqueTaskIds(ts)
    ensures Aligned(ts, WithStatus(ts, id, to)) && UniqueTaskIds(WithStatus(ts, id, to))
  {
  }

  /** Repeating the same drop of an ordinary task after it was committed is ignored. */
  lemma RepeatedOrdinaryDropIsIgnored(b: BoardState, drop: Drop, reply: ServerReply, reply': ServerReply, task: Task)
    requires FindTask(b.tasks, drop.active) == Some(task)
    requires task.id != ServerTaskId
    ensures var once := Step(b, drop, reply);
      Step(once, drop, reply') == once
  {
    var once := Step(b, drop, reply);
    if Plan(b.tasks, drop).Move? {
      var to := drop.over.value;
      var p := (t: Task) => t.id == drop.active;
      FindFirstIsFirst(b.tasks, p);
      var k :| IsFirst(b.tasks, p, k) && FindFirst(b.tasks, p) == Some(b.tasks[k]);
      assert IsFirst(once.tasks, p, k);
      assert FindTask(once.tasks, drop.active) == Some(once.tasks[k]);
    }
  }

  /** Two notifications shown back to back never overlap: each hides the slot first,
      the first timer displays the first, and the second timer leaves the second visible. */
  lemma LastNotificationWins(b: BoardState, first: Notice, second: Notice)
    requires b.timers == []
    ensures var shown := Show(Show(b, first), second);
      !shown.notification.open &&
      Fire(shown).notification == NotificationData(true, first.message, first.severity) &&
      Fire(Fire(shown)).notification == NotificationData(true, second.message, second.severity) &&
      Fire(Fire(shown)).timers == []
  {
  }

  /** A confirmed move of the server task is never committed. Dropping it back onto its
      committed column is then ignored, leaving the shadow on the new column, and once a
      later drop of any other task is copied into the shadow, the server task shows its
      committed status again. */
  lemma ServerMoveIsNeverCommitted(b: BoardState, task: Task, to: string, back: ServerReply,
                                   other: Drop, reply: ServerReply)
    requires FindTask(b.tasks, ServerTaskId) == Some(task)
    requires task.status != to && to != ServerTaskId
    requires other.active != ServerTaskId
    ensures var moved := Step(b, Drop(ServerTaskId, Some(to)), Confirmed);
      moved.tasks == b.tasks &&
      (forall i :: 0 <= i < |b.shadow| && b.shadow[i].id == ServerTaskId ==> moved.shadow[i].status == to) &&
      Step(moved, Drop(ServerTaskId, Some(task.status)), back) == moved &&
      forall i :: 0 <= i < |b.tasks| && b.tasks[i].id == ServerTaskId ==>
        Sync(Step(moved, other, reply)).shadow[i] == b.tasks[i]
  {
    var moved := Show(b.(shadow := WithStatus(b.shadow, ServerTaskId, to)), MovedNotice(task, to));
    assert Plan(b.tasks, Drop(ServerTaskId, Some(to))) == Move(task, to);
    assert Step(b, Drop(ServerTaskId, Some(to)), Confirmed) == moved;
    SameColumnIsIgnored(moved, Drop(ServerTaskId, Some(task.status)), back, task);
    forall i | 0 <= i < |b.tasks| && b.tasks[i].id == ServerTaskId
      ensures Sync(Step(moved, other, reply)).shadow[i] == b.tasks[i]
    {
      OtherDropKeepsRecord(moved, other, reply, i);
    }
  }

  /** A drop whose dragged id is not the id of the record at index i leaves that
      committed record as it was. */
  lemma OtherDropKeepsRecord(b: BoardState, drop: Drop, reply: ServerReply, i: int)
    requires 0 <= i < |b.tasks| && b.tasks[i].id != drop.active
    ensures Step(b, drop, reply).tasks[i] == b.tasks[i]
  {
    match Plan(b.tasks, drop)
    case Ignore =>
    case Move(t, to) =>
      if t.id != ServerTaskId {
        assert Step(b, drop, reply).tasks == WithStatus(b.tasks, drop.active, to);
      }
  }

  /** The board component's state cells. The committed tasks live in the task loader hook. */
  class Board {
    const hook: UseTasks.TasksHook
    var optimisticTasks: seq<Task>
    var notification: NotificationData
    /** Notices whose display timer is running, oldest first. */
    var timers: seq<Notice>

    function State(): BoardState
      reads this, hook
    {
      BoardState(hook.tasks, optimisticTasks, notification, timers)
    }

    constructor (hook: UseTasks.TasksHook)
      ensures this.hook == hook
      ensures optimisticTasks == [] && notification == Hidden && timers == []
    {
      this.hook := hook;
      optimisticTasks := [];
      notification := Hidden;
      timers := [];
    }

    /** The effect run whenever the committed tasks change: the shadow becomes a copy of them. */
    method SyncShadow()
      modifies this`optimisticTasks
      ensures State() == Sync(old(State()))
    {
      optimisticTasks := hook.tasks;
    }

    /** Hide the slot, keeping its message and severity. */
    method CloseNotification()
      modifies this`notification
      ensures notification == old(notification).(open := false)
    {
      notification := notification.(open := false);
    }

    method ShowNotification(message: string, severity: Severity)
      modifies this`notification, this`timers
      ensures State() == Show(old(State()), Notice(message, severity))
    {
      CloseNotification();
      timers := timers + [Notice(message, severity)];
    }

    /** The display timer of the oldest pending notice fires. */
    method FireTimer()
      requires timers != []
      modifies this`notification, this`timers
      ensures State() == Fire(old(State()))
    {
      notification := NotificationData(true, timers[0].message, timers[0].severity);
      timers := timers[1..];
    }

    /** The drop handler: `reply` is what the task server answers if it is asked. */
    method HandleDragEnd(drop: Drop, reply: ServerReply)
      modifies this`optimisticTasks, this`notification, this`timers, hook`tasks
      ensures State() == Step(old(State()), drop, reply)
    {
      if drop.over.None? || drop.active == drop.over.value {
        return;
      }
      var movedTask := FindTask(hook.tasks, drop.active);
      if movedTask.None? {
        return;
      }
      var task := movedTask.value;
      var newStatus := drop.over.value;
      if task.status == newStatus {
        return;
      }
      // the committed tasks as this drop saw them, used for the rollback
      var tasks := hook.tasks;
      optimisticTasks := WithStatus(optimisticTasks, task.id, newStatus);
      if task.id == ServerTaskId {
        match reply {
          case Confirmed =>
            ShowNotification(MovedNotice(task, newStatus).message, Success);
          case Rejected(reason) =>
            optimisticTasks := tasks;
            ShowNotification(FailedNotice(task, reason).message, Error);
        }
      } else {
        hook.tasks := WithStatus(hook.tasks, drop.active, newStatus);
        ShowNotification(MovedNotice(task, newStatus).message, Success);
      }
    }
  }
}
