/**
 * The task store (`TaskList`): an ordered array of task objects, the
 * queries and sorts the board uses, aggregate counts, and the mirror of
 * the whole array that is written to local storage after each change.
 */
module TaskStore {
  import opened Wrappers
  import opened Text
  import opened Sorting
  import opened TaskModel

  /** What the local-storage slot of the store holds: nothing (or an empty
      string), a payload that does not parse as an array of task records,
      or the records last written. */
  datatype Stored = Absent | Malformed | Saved(records: seq<ITask>)

  /** The result of `getStatistics`. */
  datatype Stats = Stats(
    total: nat,
    todo: nat,
    inprogress: nat,
    done: nat,
    high: nat,
    medium: nat,
    low: nat,
    overdue: nat)

  /** The sort key of `sortByDueDate`: a task without a due date (or with
      an empty one) sorts after every dated task. */
  datatype DueKey = Undated | Dated(date: string)

  function DueKeyOf(r: ITask): DueKey {
    if HasDueDate(r) then Dated(r.dueDate.value) else Undated
  }

  /** The order `sortByDueDate`'s comparator imposes on keys. */
  predicate DueKeyLe(a: DueKey, b: DueKey) {
    b.Undated? || (a.Dated? && StrLe(a.date, b.date))
  }

  /** `priorityOrder` of `sortByPriority`. */
  function Rank(p: Priority): int {
    match p
    case High => 0
    case Medium => 1
    case Low => 2
  }

  predicate IntLe(a: int, b: int) {
    a <= b
  }

  /** The tests the store's filters apply to a task's record. */
  datatype Criterion =
    | StatusIs(status: Status)
    | PriorityIs(priority: Priority)
    | Mentions(needle: string)
    | OverdueOn(today: string)
    | DueKeyIs(key: DueKey)

  predicate Holds(c: Criterion, r: ITask) {
    match c
    case StatusIs(s) => r.status == s
    case PriorityIs(p) => r.priority == p
    case Mentions(q) => Contains(Lower(r.title), q) || Contains(Lower(r.description), q)
    case OverdueOn(today) => Overdue(r, today)
    case DueKeyIs(k) => DueKeyOf(r) == k
  }

  /** `tasks.map((task) => task.toJSON())`: one record per task, in order. */
  function Records(ts: seq<Task>): (r: seq<ITask>)
    reads ts
    ensures |r| == |ts|
  {
    seq(|ts|, i requires 0 <= i < |ts| reads ts => ts[i].ToJSON())
  }

  /** Removing the task at `k` removes its record and keeps the others. */
  lemma RemovedRecords(ts: seq<Task>, k: nat)
    requires k < |ts|
    ensures Records(ts[..k] + ts[k + 1..]) == Records(ts)[..k] + Records(ts)[k + 1..]
  {
  }

  /** The records of two arrays joined are the records of each, joined. */
  lemma RecordsAppend(a: seq<Task>, b: seq<Task>)
    ensures Records(a + b) == Records(a) + Records(b)
  {
  }

  ghost predicate Distinct(ts: seq<Task>) {
    forall i, j :: 0 <= i < j < |ts| ==> ts[i] != ts[j]
  }

  /** `Array.prototype.filter`: the tasks whose record meets `c`, each as
      often as it occurs in `ts`. */
  function Where(ts: seq<Task>, c: Criterion): (r: seq<Task>)
    reads ts
    ensures forall t :: t in r ==> t in ts && Holds(c, t.ToJSON())
    ensures forall t :: t in ts && Holds(c, t.ToJSON()) ==> t in r
    ensures |r| <= |ts|
  {
    if ts == [] then []
    else
      assert ts == [ts[0]] + ts[1..];
      (if Holds(c, ts[0].ToJSON()) then [ts[0]] else []) + Where(ts[1..], c)
  }

  /** Filtering keeps each matching task as many times as it occurs, and
      drops every other. */
  lemma {:induction false} WhereMultiplicity(ts: seq<Task>, c: Criterion, t: Task)
    ensures multiset(Where(ts, c))[t] == if Holds(c, t.ToJSON()) then multiset(ts)[t] else 0
  {
    if ts != [] {
      var x := if Holds(c, ts[0].ToJSON()) then [ts[0]] else [];
      assert ts == [ts[0]] + ts[1..];
      assert Where(ts, c) == x + Where(ts[1..], c);
      WhereMultiplicity(ts[1..], c, t);
    }
  }

  /** Filtering keeps the order: the matches in an earlier part of the
      array come before the matches in a later part. */
  lemma {:induction false} WhereAppend(a: seq<Task>, b: seq<Task>, c: Criterion)
    ensures Where(a + b, c) == Where(a, c) + Where(b, c)
  {
    if a == [] {
      assert a + b == b;
    } else {
      var x := if Holds(c, a[0].ToJSON()) then [a[0]] else [];
      calc {
        Where(a + b, c);
        { assert (a + b)[0] == a[0] && (a + b)[1..] == a[1..] + b; }
        x + Where(a[1..] + b, c);
        { WhereAppend(a[1..], b, c); }
        x + (Where(a[1..], c) + Where(b, c));
        (x + Where(a[1..], c)) + Where(b, c);
      }
    }
  }

  /** Every task has exactly one status. */
  lemma {:induction false} StatusPartition(ts: seq<Task>)
    ensures |Where(ts, StatusIs(Todo))| + |Where(ts, StatusIs(InProgress))|
          + |Where(ts, StatusIs(Done))| == |ts|
  {
    if ts != [] {
      StatusPartition(ts[1..]);
    }
  }

  /** Every task has exactly one priority. */
  lemma {:induction false} PriorityPartition(ts: seq<Task>)
    ensures |Where(ts, PriorityIs(High))| + |Where(ts, PriorityIs(Medium))|
          + |Where(ts, PriorityIs(Low))| == |ts|
  {
    if ts != [] {
      PriorityPartition(ts[1..]);
    }
  }

  /** Overdue tasks are never done ones. */
  lemma {:induction false} OverdueNotDone(ts: seq<Task>, today: string)
    ensures |Where(ts, OverdueOn(today))| + |Where(ts, StatusIs(Done))| <= |ts|
  {
    if ts != [] {
      OverdueNotDone(ts[1..], today);
    }
  }

  /** A task is mentioned by a query when its lower-cased title or
      description contains the query. */
  lemma MentionsMeans(ts: seq<Task>, q: string)
    ensures forall t :: t in ts ==>
      (Holds(Mentions(q), t.ToJSON()) <==> Contains(Lower(t.title), q) || Contains(Lower(t.description), q))
  {
  }

  /** `findIndex` on the identifier: the position of the first task with
      that identifier, or None when no task has it. */
  function FindIndex(ts: seq<Task>, id: string): (r: Option<nat>)
    reads ts
    ensures r.None? <==> forall t :: t in ts ==> t.id != id
    ensures r.Some? ==> r.value < |ts| && ts[r.value].id == id
    ensures r.Some? ==> forall j :: 0 <= j < r.value ==> ts[j].id != id
  {
    if ts == [] then None
    else if ts[0].id == id then Some(0)
    else
      var rest := FindIndex(ts[1..], id);
      assert forall t :: t in ts ==> t == ts[0] || t in ts[1..];
      if rest.None? then None else Some(rest.value + 1)
  }

  /** A key function that gives each task of `ts` the rank of its priority. */
  function RankKey(ts: seq<Task>): (key: Task -> int)
    reads ts
    ensures forall t :: t in ts ==> key(t) == Rank(t.priority)
  {
    var m := map t | t in ts :: Rank(t.priority);
    t => if t in m then m[t] else 0
  }

  /** A key function that gives each task of `ts` its due-date key. */
  function DueKeyFn(ts: seq<Task>): (key: Task -> DueKey)
    reads ts
    ensures forall t :: t in ts ==> key(t) == DueKeyOf(t.ToJSON())
  {
    var m := map t | t in ts :: DueKeyOf(t.ToJSON());
    t => if t in m then m[t] else Undated
  }

  lemma IntLeTotalOrder()
    ensures TotalOrder(IntLe)
  {
  }

  lemma DueKeyLeTotalOrder()
    ensures TotalOrder(DueKeyLe)
  {
    forall a: DueKey ensures DueKeyLe(a, a) {
      if a.Dated? { StrLeReflexive(a.date); }
    }
    forall a: DueKey, b: DueKey | DueKeyLe(a, b) && DueKeyLe(b, a) ensures a == b {
      if a.Dated? && b.Dated? { StrLeAntisymmetric(a.date, b.date); }
    }
    forall a: DueKey, b: DueKey, c: DueKey | DueKeyLe(a, b) && DueKeyLe(b, c) ensures DueKeyLe(a, c) {
      if a.Dated? && b.Dated? && c.Dated? { StrLeTransitive(a.date, b.date, c.date); }
    }
    forall a: DueKey, b: DueKey ensures DueKeyLe(a, b) || DueKeyLe(b, a) {
      if a.Dated? && b.Dated? { StrLeTotal(a.date, b.date); }
    }
  }

  /** On tasks whose key decides a criterion, the elements with that key
      are the tasks that meet the criterion. */
  lemma {:induction false} KeyClassIsWhere<K>(s: seq<Task>, key: Task -> K, k: K, c: Criterion)
    requires forall t :: t in s ==> (key(t) == k <==> Holds(c, t.ToJSON()))
    ensures KeyClass(s, key, k) == Where(s, c)
  {
    if s != [] {
      KeyClassIsWhere(s[1..], key, k, c);
    }
  }

  /** Sorting by priority rank keeps the tasks and orders them by rank. */
  lemma PrioritySortOrder(ts: seq<Task>)
    ensures var r := SortBy(ts, RankKey(ts), IntLe);
      && multiset(r) == multiset(ts)
      && (forall t :: t in r ==> t in ts)
      && (forall i, j :: 0 <= i < j < |r| ==> Rank(r[i].priority) <= Rank(r[j].priority))
  {
    var key := RankKey(ts);
    var r := SortBy(ts, key, IntLe);
    assert forall t :: t in r ==> t in ts by {
      forall t | t in r ensures t in ts { assert t in multiset(r); }
    }
    assert SortedBy(r, key, IntLe) by {
      IntLeTotalOrder();
      SortBySorted(ts, key, IntLe);
    }
    forall i, j | 0 <= i < j < |r| ensures Rank(r[i].priority) <= Rank(r[j].priority) {
      assert r[i] in ts && r[j] in ts;
      assert IntLe(key(r[i]), key(r[j]));
    }
  }

  /** A stable sort on a key that decides a criterion leaves the tasks
      meeting the criterion in their input order. */
  lemma StableWhere<K(!new)>(ts: seq<Task>, key: Task -> K, le: (K, K) -> bool, k: K, c: Criterion)
    requires TotalOrder(le)
    requires forall t :: t in ts ==> (key(t) == k <==> Holds(c, t.ToJSON()))
    ensures Where(SortBy(ts, key, le), c) == Where(ts, c)
  {
    var r := SortBy(ts, key, le);
    forall t | t in r ensures key(t) == k <==> Holds(c, t.ToJSON()) {
      assert t in multiset(r);
    }
    SortByStable(ts, key, le, k);
    KeyClassIsWhere(r, key, k, c);
    KeyClassIsWhere(ts, key, k, c);
  }

  /** Sorting by priority rank keeps the tasks of each priority in their
      input order. */
  lemma PrioritySortStable(ts: seq<Task>)
    ensures var r := SortBy(ts, RankKey(ts), IntLe);
      forall p :: Where(r, PriorityIs(p)) == Where(ts, PriorityIs(p))
  {
    IntLeTotalOrder();
    forall p ensures Where(SortBy(ts, RankKey(ts), IntLe), PriorityIs(p)) == Where(ts, PriorityIs(p)) {
      StableWhere(ts, RankKey(ts), IntLe, Rank(p), PriorityIs(p));
    }
  }

  /** What the due-date key order says about the records' due dates. */
  lemma DueKeyLeMeans(a: ITask, b: ITask)
    requires DueKeyLe(DueKeyOf(a), DueKeyOf(b))
    ensures !HasDueDate(a) ==> !HasDueDate(b)
    ensures HasDueDate(b) ==> HasDueDate(a) && StrLe(a.dueDate.value, b.dueDate.value)
  {
  }

  /** Sorting by due-date key keeps the tasks and puts them in due-date
      order, undated last. */
  lemma DueDateSortOrder(ts: seq<Task>)
    ensures var r := SortBy(ts, DueKeyFn(ts), DueKeyLe);
      && multiset(r) == multiset(ts)
      && (forall t :: t in r ==> t in ts)
      && (forall i, j :: 0 <= i < j < |r| && !HasDueDate(r[i].ToJSON()) ==> !HasDueDate(r[j].ToJSON()))
      && (forall i, j :: 0 <= i < j < |r| && HasDueDate(r[j].ToJSON()) ==>
            HasDueDate(r[i].ToJSON()) && StrLe(r[i].dueDate.value, r[j].dueDate.value))
  {
    var key := DueKeyFn(ts);
    var r := SortBy(ts, key, DueKeyLe);
    assert forall t :: t in r ==> t in ts by {
      forall t | t in r ensures t in ts { assert t in multiset(r); }
    }
    assert SortedBy(r, key, DueKeyLe) by {
      DueKeyLeTotalOrder();
      SortBySorted(ts, key, DueKeyLe);
    }
    forall i, j | 0 <= i < j < |r|
      ensures !HasDueDate(r[i].ToJSON()) ==> !HasDueDate(r[j].ToJSON())
      ensures HasDueDate(r[j].ToJSON()) ==> HasDueDate(r[i].ToJSON()) && StrLe(r[i].dueDate.value, r[j].dueDate.value)
    {
      assert r[i] in ts && r[j] in ts;
      assert DueKeyLe(key(r[i]), key(r[j]));
      DueKeyLeMeans(r[i].ToJSON(), r[j].ToJSON());
    }
  }

  /** Sorting by due-date key keeps the tasks of each key in their input
      order. */
  lemma DueDateSortStable(ts: seq<Task>)
    ensures var r := SortBy(ts, DueKeyFn(ts), DueKeyLe);
      forall k :: Where(r, DueKeyIs(k)) == Where(ts, DueKeyIs(k))
  {
    DueKeyLeTotalOrder();
    forall k ensures Where(SortBy(ts, DueKeyFn(ts), DueKeyLe), DueKeyIs(k)) == Where(ts, DueKeyIs(k)) {
      StableWhere(ts, DueKeyFn(ts), DueKeyLe, k, DueKeyIs(k));
    }
  }

  /** The store (`TaskList`). `stored` is the local-storage slot it
      mirrors itself to; `storageFailing` says that writing to it throws
      (the quota is exceeded, say), which the store catches and ignores. */
  class TaskList {
    var tasks: seq<Task>
    var stored: Stored
    var storageFailing: bool

    /** The records of the tasks, in order. */
    function Snapshot(): seq<ITask>
      reads this`tasks, tasks
    {
      Records(tasks)
    }

    /** The storage slot holds exactly the records of the tasks. */
    predicate Mirrored()
      reads this`tasks, this`stored, tasks
    {
      stored == Saved(Snapshot())
    }

    /** A store restored from what local storage holds. A missing or
        unreadable payload gives an empty store; `now` is the clock
        reading the restored tasks' constructor sees (and discards). */
    constructor (stored: Stored, storageFailing: bool, now: string)
      ensures this.stored == stored && this.storageFailing == storageFailing
      ensures Snapshot() == if stored.Saved? then stored.records else []
      ensures forall t :: t in tasks ==> fresh(t)
      ensures Distinct(tasks)
    {
      this.tasks := [];
      this.stored := stored;
      this.storageFailing := storageFailing;
      new;
      LoadFromStorage(now);
    }

    /** `loadFromStorage`: a missing payload leaves the array alone, an
        unreadable one empties it, and stored records become new task
        objects in the same order. */
    method LoadFromStorage(now: string)
      modifies this`tasks
      ensures stored.Absent? ==> tasks == old(tasks)
      ensures stored.Malformed? ==> tasks == []
      ensures stored.Saved? ==> Snapshot() == stored.records
      ensures stored.Saved? ==> Distinct(tasks) && forall t :: t in tasks ==> fresh(t)
    {
      match stored
      case Absent =>
      case Malformed =>
        tasks := [];
      case Saved(records) =>
        var loaded: seq<Task> := [];
        var i := 0;
        while i < |records|
          invariant 0 <= i <= |records| && |loaded| == i
          invariant forall j :: 0 <= j < i ==> loaded[j].ToJSON() == records[j]
          invariant forall t :: t in loaded ==> fresh(t)
          invariant Distinct(loaded)
        {
          var t := Task.FromJSON(records[i], now);
          loaded := loaded + [t];
          i := i + 1;
        }
        tasks := loaded;
    }

    /** `saveToStorage`: writes the records of all tasks, unless writing
        fails, in which case the slot keeps what it held. */
    method SaveToStorage()
      modifies this`stored
      ensures storageFailing ==> stored == old(stored)
      ensures !storageFailing ==> Mirrored()
    {
      if !storageFailing {
        stored := Saved(Snapshot());
      }
    }

    /** `setTasks`: replaces the whole array, then mirrors it. */
    method SetTasks(ts: seq<Task>)
      modifies this`tasks, this`stored
      ensures tasks == ts
      ensures storageFailing ==> stored == old(stored)
      ensures !storageFailing ==> Mirrored()
    {
      tasks := ts;
      SaveToStorage();
    }

    /** `getTasks`: the tasks of the store, in order. */
    function GetTasks(): (r: seq<Task>)
      reads this`tasks
      ensures |r| == |tasks| && forall i :: 0 <= i < |r| ==> r[i] == tasks[i]
    {
      tasks
    }

    /** `getTaskById`: the first task with the identifier, or None. */
    function GetTaskById(id: string): (r: Option<Task>)
      reads this`tasks, tasks
      ensures r.None? <==> forall t :: t in tasks ==> t.id != id
      ensures r.Some? ==> exists k :: 0 <= k < |tasks| && tasks[k] == r.value && r.value.id == id
                                       && forall j :: 0 <= j < k ==> tasks[j].id != id
    {
      var k := FindIndex(tasks, id);
      if k.Some? then Some(tasks[k.value]) else None
    }

    /** `getTasksByStatus`: exactly the tasks with that status, in order. */
    function GetTasksByStatus(status: Status): (r: seq<Task>)
      reads this`tasks, tasks
      ensures forall t :: t in r ==> t in tasks && t.status == status
      ensures forall t :: t in tasks && t.status == status ==> t in r
    {
      Where(tasks, StatusIs(status))
    }

    /** `getTasksByPriority`: exactly the tasks with that priority, in order. */
    function GetTasksByPriority(priority: Priority): (r: seq<Task>)
      reads this`tasks, tasks
      ensures forall t :: t in r ==> t in tasks && t.priority == priority
      ensures forall t :: t in tasks && t.priority == priority ==> t in r
    {
      Where(tasks, PriorityIs(priority))
    }

    /** `add`: appends the task, then mirrors. */
    method Add(task: Task)
      modifies this`tasks, this`stored
      ensures tasks == old(tasks) + [task]
      ensures Snapshot() == old(Snapshot()) + [task.ToJSON()]
      ensures storageFailing ==> stored == old(stored)
      ensures !storageFailing ==> Mirrored()
    {
      tasks := tasks + [task];
      SaveToStorage();
    }

    /** `update`: merges the partial record into the first task with the
        identifier and mirrors; does nothing at all when there is none.
        The array is not changed, its element is: every position holding
        that same object shows the merged record, the others are as
        they were. */
    method Update(id: string, updates: TaskUpdate, now: string)
      modifies this`stored, tasks
      ensures tasks == old(tasks)
      ensures old(FindIndex(tasks, id)).None? ==>
        Snapshot() == old(Snapshot()) && stored == old(stored)
      ensures old(FindIndex(tasks, id)).Some? ==>
        var k := old(FindIndex(tasks, id)).value;
        && (forall j :: 0 <= j < |tasks| ==>
              Snapshot()[j] == if tasks[j] == tasks[k] then Merge(old(Snapshot()[k]), updates, now)
                               else old(Snapshot()[j]))
        && (storageFailing ==> stored == old(stored))
        && (!storageFailing ==> Mirrored())
      ensures old(FindIndex(tasks, id)).Some? && Distinct(tasks) ==>
        var k := old(FindIndex(tasks, id)).value;
        Snapshot() == old(Snapshot())[k := Merge(old(Snapshot()[k]), updates, now)]
    {
      var task := GetTaskById(id);
      if task.Some? {
        task.value.Update(updates, now);
        SaveToStorage();
      }
    }

    /** `delete`: removes the first task with the identifier and mirrors;
        does nothing at all when there is none. */
    method Delete(id: string)
      modifies this`tasks, this`stored
      ensures old(FindIndex(tasks, id)).None? ==> tasks == old(tasks) && stored == old(stored)
      ensures old(FindIndex(tasks, id)).Some? ==>
        var k := old(FindIndex(tasks, id)).value;
        && tasks == old(tasks[..k] + tasks[k + 1..])
        && Snapshot() == old(Snapshot()[..k] + Snapshot()[k + 1..])
        && (storageFailing ==> stored == old(stored))
        && (!storageFailing ==> Mirrored())
    {
      var index := FindIndex(tasks, id);
      if index.Some? {
        var k := index.value;
        RemovedRecords(tasks, k);
        tasks := tasks[..k] + tasks[k + 1..];
        SaveToStorage();
      }
    }

    /** `moveTask`: sets the status of the first task with the identifier
        (and so its `updatedAt`) and mirrors; does nothing at all when
        there is none. */
    method MoveTask(id: string, newStatus: Status, now: string)
      modifies this`stored, tasks
      ensures tasks == old(tasks)
      ensures old(FindIndex(tasks, id)).None? ==>
        Snapshot() == old(Snapshot()) && stored == old(stored)
      ensures old(FindIndex(tasks, id)).Some? ==>
        var k := old(FindIndex(tasks, id)).value;
        && (forall j :: 0 <= j < |tasks| ==>
              Snapshot()[j] == if tasks[j] == tasks[k] then old(Snapshot()[k]).(status := newStatus, updatedAt := now)
                               else old(Snapshot()[j]))
        && (storageFailing ==> stored == old(stored))
        && (!storageFailing ==> Mirrored())
      ensures old(FindIndex(tasks, id)).Some? && Distinct(tasks) ==>
        var k := old(FindIndex(tasks, id)).value;
        Snapshot() == old(Snapshot())[k := old(Snapshot()[k]).(status := newStatus, updatedAt := now)]
    {
      var task := GetTaskById(id);
      if task.Some? {
        MergeStatusChange(task.value.ToJSON(), newStatus, now);
        task.value.Update(StatusChange(newStatus), now);
        SaveToStorage();
      }
    }

    /** `search`: a query that is blank once lower-cased and trimmed gives
        the whole array back; otherwise the tasks whose lower-cased title
        or description contains the lower-cased, trimmed query, in order. */
    function Search(query: string): (r: seq<Task>)
      reads this`tasks, tasks
      ensures Blank(query) ==> r == tasks
      ensures !Blank(query) ==> forall t :: t in tasks ==>
        (t in r <==> Contains(Lower(t.title), Trim(Lower(query))) || Contains(Lower(t.description), Trim(Lower(query))))
      ensures forall t :: t in r ==> t in tasks
      ensures !Blank(query) ==> r == Where(tasks, Mentions(Trim(Lower(query))))
    {
      var q := Trim(Lower(query));
      TrimEmptyIffBlank(Lower(query));
      LowerKeepsBlank(query);
      MentionsMeans(tasks, q);
      if q == [] then tasks else Where(tasks, Mentions(q))
    }

    /** `sortByPriority`: a new array holding the same tasks, high before
        medium before low, tasks of equal priority in their input order. */
    function SortByPriority(ts: seq<Task>): (r: seq<Task>)
      reads ts
      ensures multiset(r) == multiset(ts)
      ensures forall t :: t in r ==> t in ts
      ensures forall i, j :: 0 <= i < j < |r| ==> Rank(r[i].priority) <= Rank(r[j].priority)
      ensures forall p :: Where(r, PriorityIs(p)) == Where(ts, PriorityIs(p))
    {
      PrioritySortOrder(ts);
      PrioritySortStable(ts);
      SortBy(ts, RankKey(ts), IntLe)
    }

    /** `sortByDueDate`: a new array holding the same tasks, dated tasks
        by ascending due date and then the undated ones; tasks with equal
        due dates, and the undated tasks, in their input order. */
    function SortByDueDate(ts: seq<Task>): (r: seq<Task>)
      reads ts
      ensures multiset(r) == multiset(ts)
      ensures forall t :: t in r ==> t in ts
      ensures forall i, j :: 0 <= i < j < |r| && !HasDueDate(r[i].ToJSON()) ==> !HasDueDate(r[j].ToJSON())
      ensures forall i, j :: 0 <= i < j < |r| && HasDueDate(r[j].ToJSON()) ==>
                HasDueDate(r[i].ToJSON()) && StrLe(r[i].dueDate.value, r[j].dueDate.value)
      ensures forall k :: Where(r, DueKeyIs(k)) == Where(ts, DueKeyIs(k))
    {
      DueDateSortOrder(ts);
      DueDateSortStable(ts);
      SortBy(ts, DueKeyFn(ts), DueKeyLe)
    }

    /** `getStatistics`: the number of tasks, of tasks per status and per
        priority, and of overdue tasks as of `today`. */
    function GetStatistics(today: string): (s: Stats)
      reads this`tasks, tasks
      ensures s.total == |tasks|
      ensures s.todo + s.inprogress + s.done == s.total
      ensures s.high + s.medium + s.low == s.total
      ensures s.overdue == |Where(tasks, OverdueOn(today))|
      ensures s.overdue <= s.todo + s.inprogress
    {
      StatusPartition(tasks);
      PriorityPartition(tasks);
      OverdueNotDone(tasks, today);
      Stats(
        |tasks|,
        |GetTasksByStatus(Todo)|,
        |GetTasksByStatus(InProgress)|,
        |GetTasksByStatus(Done)|,
        |GetTasksByPriority(High)|,
        |GetTasksByPriority(Medium)|,
        |GetTasksByPriority(Low)|,
        |Where(tasks, OverdueOn(today))|)
    }

    /** `clear`: empties the array, then mirrors. */
    method Clear()
      modifies this`tasks, this`stored
      ensures tasks == []
      ensures storageFailing ==> stored == old(stored)
      ensures !storageFailing ==> stored == Saved([])
    {
      tasks := [];
      SaveToStorage();
    }
  }

  /** The columns of a board holding a done task and a todo task. */
  lemma BoardViews(list: TaskList, a: Task, b: Task)
    requires list.tasks == [a, b]
    requires a.status == Done && b.status == Todo
    ensures list.GetTasksByStatus(Todo) == [b]
    ensures list.GetTasksByStatus(Done) == [a]
    ensures list.GetStatistics("2024-01-01").done == 1
  {
    assert [a, b][1..] == [b];
    assert Where([a, b], StatusIs(Todo)) == [b];
    assert Where([a, b], StatusIs(Done)) == [a];
  }

  /** A client of the store: a board holding two new tasks, both to do. */
  method TwoTaskBoard(now: string) returns (list: TaskList, a: Task, b: Task)
    ensures fresh(list) && fresh(a) && fresh(b)
    ensures list.tasks == [a, b] && a != b
    ensures a.id == "task-a" && a.status == Todo && a.priority == High
    ensures b.id == "task-b" && b.status == Todo && b.priority == Low
    ensures list.stored == Saved(list.Snapshot())
  {
    a := new Task("task-a", now, "Write report", "Quarterly numbers", Todo, High);
    b := new Task("task-b", now, "Buy milk", "", Todo, Low);
    list := new TaskList(Absent, false, now);
    list.SetTasks([a, b]);
  }

  /** A client of the store: the board drags a high-priority task to done. */
  method MoveScenario(now: string, later: string)
  {
    var list, a, b := TwoTaskBoard(now);
    assert FindIndex(list.tasks, "task-a") == Some(0);
    list.MoveTask("task-a", Done, later);
    assert list.Snapshot()[0].status == Done;
    assert list.Snapshot()[1].status == Todo;
    BoardViews(list, a, b);
  }

  /** A client of the store: a board holding one new task with the
      default status and priority. */
  method OneTaskBoard(now: string) returns (list: TaskList, a: Task)
    ensures fresh(list) && fresh(a)
    ensures list.tasks == [a] && !list.storageFailing
    ensures a.id == "task-a" && a.status == Todo && a.priority == Medium && a.createdAt == a.updatedAt
  {
    list := new TaskList(Absent, false, now);
    a := new Task("task-a", now, "Write report", "Quarterly numbers");
    list.Add(a);
  }

  /** A client of the store: deleting an unknown identifier, then clearing. */
  method DeleteAndClearScenario(now: string)
  {
    var list, a := OneTaskBoard(now);
    assert FindIndex(list.tasks, "task-a") == Some(0);
    assert list.GetTaskById("task-a") == Some(a);
    assert FindIndex(list.tasks, "task-z") == None;
    list.Delete("task-z");
    assert list.tasks == [a];
    list.Clear();
    assert list.stored == Saved([]);
    assert list.GetStatistics("2024-01-01").total == 0;
  }

  /** A client of the store: restoring from a payload that does not parse. */
  method RestoreScenario(now: string)
  {
    var restored := new TaskList(Malformed, false, now);
    assert restored.tasks == [];
  }
}
