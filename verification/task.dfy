/**
 * One unit of work on the board: its plain record (what `toJSON` produces
 * and what storage holds), the partial record `update` merges in, the
 * derived display values, and the `Task` object itself.
 */
module TaskModel {
  import opened Wrappers
  import opened Text

  datatype Status = Todo | InProgress | Done

  datatype Priority = Low | Medium | High

  /** The plain record of a task (`ITask`). `dueDate` is None when the
      property is undefined. Timestamps are opaque strings. */
  datatype ITask = ITask(
    id: string,
    title: string,
    description: string,
    status: Status,
    priority: Priority,
    dueDate: Option<string>,
    createdAt: string,
    updatedAt: string)

  /** `Partial<ITask>`: None leaves a field alone. For `dueDate`,
      Some(None) is a property that is present with the value
      `undefined`, which clears the due date. */
  datatype TaskUpdate = TaskUpdate(
    id: Option<string>,
    title: Option<string>,
    description: Option<string>,
    status: Option<Status>,
    priority: Option<Priority>,
    dueDate: Option<Option<string>>,
    createdAt: Option<string>,
    updatedAt: Option<string>)

  /** The empty partial record `{}`. */
  const NoChanges := TaskUpdate(None, None, None, None, None, None, None, None)

  /** The partial record `{ status: s }` that `moveTask` passes. */
  function StatusChange(s: Status): TaskUpdate {
    NoChanges.(status := Some(s))
  }

  function Given<T>(o: Option<T>, current: T): T {
    if o.Some? then o.value else current
  }

  /** `Object.assign(task, updates)` followed by `updatedAt = now`: the
      timestamp is refreshed and no field the partial record leaves out
      changes. */
  function Merge(r: ITask, u: TaskUpdate, now: string): (m: ITask)
    ensures m.updatedAt == now
    ensures u.id.None? ==> m.id == r.id
    ensures u.title.None? ==> m.title == r.title
    ensures u.description.None? ==> m.description == r.description
    ensures u.status.None? ==> m.status == r.status
    ensures u.priority.None? ==> m.priority == r.priority
    ensures u.dueDate.None? ==> m.dueDate == r.dueDate
    ensures u.createdAt.None? ==> m.createdAt == r.createdAt
  {
    ITask(
      Given(u.id, r.id),
      Given(u.title, r.title),
      Given(u.description, r.description),
      Given(u.status, r.status),
      Given(u.priority, r.priority),
      Given(u.dueDate, r.dueDate),
      Given(u.createdAt, r.createdAt),
      now)
  }

  /** Two successive merges: the fields of the later one win. */
  function Then(u1: TaskUpdate, u2: TaskUpdate): TaskUpdate {
    TaskUpdate(
      if u2.id.Some? then u2.id else u1.id,
      if u2.title.Some? then u2.title else u1.title,
      if u2.description.Some? then u2.description else u1.description,
      if u2.status.Some? then u2.status else u1.status,
      if u2.priority.Some? then u2.priority else u1.priority,
      if u2.dueDate.Some? then u2.dueDate else u1.dueDate,
      if u2.createdAt.Some? then u2.createdAt else u1.createdAt,
      if u2.updatedAt.Some? then u2.updatedAt else u1.updatedAt)
  }

  /** An update stamps `updatedAt` with the current time whatever the
      partial record holds, and sets every other field to the value given
      for it, or leaves it as it was when none is given. */
  lemma MergeFields(r: ITask, u: TaskUpdate, now: string)
    ensures Merge(r, u, now).updatedAt == now
    ensures Merge(r, u, now).id == (if u.id.Some? then u.id.value else r.id)
    ensures Merge(r, u, now).title == (if u.title.Some? then u.title.value else r.title)
    ensures Merge(r, u, now).description == (if u.description.Some? then u.description.value else r.description)
    ensures Merge(r, u, now).status == (if u.status.Some? then u.status.value else r.status)
    ensures Merge(r, u, now).priority == (if u.priority.Some? then u.priority.value else r.priority)
    ensures Merge(r, u, now).dueDate == (if u.dueDate.Some? then u.dueDate.value else r.dueDate)
    ensures Merge(r, u, now).createdAt == (if u.createdAt.Some? then u.createdAt.value else r.createdAt)
    ensures u.dueDate == Some(None) ==> Merge(r, u, now).dueDate.None?
  {
  }

  /** An empty update only refreshes the timestamp. */
  lemma MergeNothing(r: ITask, now: string)
    ensures Merge(r, NoChanges, now) == r.(updatedAt := now)
  {
  }

  /** `moveTask`'s update changes the status and the timestamp only. */
  lemma MergeStatusChange(r: ITask, s: Status, now: string)
    ensures Merge(r, StatusChange(s), now) == r.(status := s, updatedAt := now)
  {
  }

  /** Applying the same update twice at the same time is applying it once. */
  lemma MergeIdempotent(r: ITask, u: TaskUpdate, now: string)
    ensures Merge(Merge(r, u, now), u, now) == Merge(r, u, now)
  {
  }

  /** Two successive updates are one update with the later fields winning. */
  lemma MergeCompose(r: ITask, u1: TaskUpdate, u2: TaskUpdate, t1: string, t2: string)
    ensures Merge(Merge(r, u1, t1), u2, t2) == Merge(r, Then(u1, u2), t2)
  {
  }

  /** The text of a priority as stored. */
  function PriorityName(p: Priority): string {
    match p
    case Low => "low"
    case Medium => "medium"
    case High => "high"
  }

  /** `getPriorityLabel`: the stored name with its first letter upper-cased. */
  function PriorityLabel(p: Priority): (r: string)
    ensures r == match p case Low => "Low" case Medium => "Medium" case High => "High"
  {
    Capitalize(PriorityName(p))
  }

  /** The style `getPriorityColor` falls back to for an unknown priority. */
  const FallbackColor := "bg-gray-100 text-gray-700 border-gray-300"

  /** `getPriorityColor`: the style classes of a priority badge; a known
      priority never gets the fallback style. */
  function PriorityColor(p: Priority): (r: string)
    ensures r != FallbackColor
  {
    match p
    case High => "bg-red-100 text-red-700 border-red-300"
    case Medium => "bg-yellow-100 text-yellow-700 border-yellow-300"
    case Low => "bg-green-100 text-green-700 border-green-300"
  }

  /** Each priority has a badge style of its own. */
  lemma PriorityColorsDistinct(p: Priority, q: Priority)
    ensures PriorityColor(p) == PriorityColor(q) ==> p == q
  {
  }

  /** `!task.dueDate` is false: a due date is set and is not the empty string. */
  predicate HasDueDate(r: ITask) {
    r.dueDate.Some? && r.dueDate.value != ""
  }

  /** `s.split("T")[0]`: the text before the first `T`, or all of it. */
  function DatePart(s: string): (r: string)
    ensures |r| <= |s| && r == s[..|r|]
    ensures 'T' !in r
    ensures |r| < |s| ==> s[|r|] == 'T'
  {
    if s == [] || s[0] == 'T' then [] else [s[0]] + DatePart(s[1..])
  }

  /** `isOverdue`, with today's local calendar date passed in as
      YYYY-MM-DD: a due date is set, its calendar date is strictly before
      today, and the task is not done. */
  function Overdue(r: ITask, today: string): (o: bool)
    ensures o ==> HasDueDate(r) && r.status != Done && DatePart(r.dueDate.value) != today
  {
    if !HasDueDate(r) then false
    else
      StrLeReflexive(today);
      StrLt(DatePart(r.dueDate.value), today) && r.status != Done
  }

  /** A date with no `T` in it is its own date part, and so is the date
      part of that date followed by a time of day. */
  lemma {:induction false} DatePartOfTimestamp(d: string, time: string)
    requires 'T' !in d
    ensures DatePart(d) == d
    ensures DatePart(d + "T" + time) == d
  {
    if d != [] {
      DatePartOfTimestamp(d[1..], time);
      assert (d + "T" + time)[1..] == d[1..] + "T" + time;
      assert d == [d[0]] + d[1..];
    }
  }

  lemma NoDueDateNotOverdue(r: ITask, today: string)
    requires !HasDueDate(r)
    ensures !Overdue(r, today)
  {
  }

  lemma DoneNotOverdue(r: ITask, today: string)
    requires r.status == Done
    ensures !Overdue(r, today)
  {
  }

  /** A task due today is not overdue: only the calendar date counts. */
  lemma DueTodayNotOverdue(r: ITask, today: string)
    requires r.dueDate.Some? && DatePart(r.dueDate.value) == today
    ensures !Overdue(r, today)
  {
    StrLeReflexive(today);
  }

  /** The time of day in a due date is ignored. */
  lemma TimeOfDayIgnored(r: ITask, d: string, time: string, today: string)
    requires d != "" && 'T' !in d
    ensures Overdue(r.(dueDate := Some(d + "T" + time)), today) == Overdue(r.(dueDate := Some(d)), today)
  {
    DatePartOfTimestamp(d, time);
  }

  /** Moving a task to done clears its overdue state; giving it a due date
      strictly before today and a status other than done makes it overdue. */
  lemma OverdueAfterUpdate(r: ITask, u: TaskUpdate, now: string, today: string)
    ensures u.status == Some(Done) ==> !Overdue(Merge(r, u, now), today)
    ensures u.status.Some? && u.status.value != Done && u.dueDate.Some? && u.dueDate.value.Some?
         && 'T' !in u.dueDate.value.value && u.dueDate.value.value != "" && StrLt(u.dueDate.value.value, today)
         ==> Overdue(Merge(r, u, now), today)
  {
    if u.dueDate.Some? && u.dueDate.value.Some? && 'T' !in u.dueDate.value.value {
      DatePartOfTimestamp(u.dueDate.value.value, "");
    }
  }

  /** A task object (`Task`), whose fields `update` changes in place. */
  class Task {
    var id: string
    var title: string
    var description: string
    var status: Status
    var priority: Priority
    var dueDate: Option<string>
    var createdAt: string
    var updatedAt: string

    /** `toJSON`: the record of every field. */
    function ToJSON(): (r: ITask)
      reads this
      ensures r.id == id && r.title == title && r.description == description
      ensures r.status == status && r.priority == priority && r.dueDate == dueDate
      ensures r.createdAt == createdAt && r.updatedAt == updatedAt
    {
      ITask(id, title, description, status, priority, dueDate, createdAt, updatedAt)
    }

    /** A new task. The identifier and the clock reading are passed in;
        status and priority default to todo and medium. */
    constructor (id: string, now: string, title: string, description: string,
                 status: Status := Todo, priority: Priority := Medium,
                 dueDate: Option<string> := None)
      ensures ToJSON() == ITask(id, title, description, status, priority, dueDate, now, now)
    {
      this.id := id;
      this.title := title;
      this.description := description;
      this.status := status;
      this.priority := priority;
      this.dueDate := dueDate;
      this.createdAt := now;
      this.updatedAt := now;
    }

    /** `update`: copies in every field the partial record holds, then
        stamps `updatedAt`. */
    method Update(updates: TaskUpdate, now: string)
      modifies this
      ensures ToJSON() == Merge(old(ToJSON()), updates, now)
    {
      id := Given(updates.id, id);
      title := Given(updates.title, title);
      description := Given(updates.description, description);
      status := Given(updates.status, status);
      priority := Given(updates.priority, priority);
      dueDate := Given(updates.dueDate, dueDate);
      createdAt := Given(updates.createdAt, createdAt);
      updatedAt := Given(updates.updatedAt, updatedAt);
      updatedAt := now;
    }

    /** `fromJSON`: builds a task through the constructor from the record's
        content fields, then restores its identifier and timestamps, so
        that the new object's record is exactly `data`. */
    static method FromJSON(data: ITask, now: string) returns (t: Task)
      ensures fresh(t)
      ensures t.ToJSON() == data
    {
      t := new Task(data.id, now, data.title, data.description, data.status, data.priority, data.dueDate);
      t.id := data.id;
      t.createdAt := data.createdAt;
      t.updatedAt := data.updatedAt;
    }

    /** `getPriorityLabel`. */
    function GetPriorityLabel(): (r: string)
      reads this
      ensures r == match priority case Low => "Low" case Medium => "Medium" case High => "High"
    {
      PriorityLabel(priority)
    }

    /** `getPriorityColor`. */
    function GetPriorityColor(): (r: string)
      reads this
      ensures r == PriorityColor(priority) && r != FallbackColor
    {
      PriorityColor(priority)
    }

    /** `isOverdue`, as of `today`. */
    function IsOverdue(today: string): (b: bool)
      reads this
      ensures b == Overdue(ToJSON(), today)
      ensures b ==> dueDate.Some? && dueDate.value != "" && status != Done
    {
      Overdue(ToJSON(), today)
    }
  }
}
