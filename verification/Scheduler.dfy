/**
 The task scheduler of one site: brain/scheduler.go, with `finalizeTaskRun` of brain/pipeline.go, over the
 `scheduled_tasks` and `task_runs` tables. Scheduler ticks, workers finishing tasks, restarts, new tasks and
 the owner's toggles may follow one another in any order.
 */
module Scheduler {
  import opened Wrappers
  import opened GoStrings
  import opened Cron

  const SECOND: int := 1_000_000_000

  /** An empty expression or an interval of 0 also stands for NULL. */
  datatype Columns = Columns(cron: string, interval: int)

  /** Expressions are validated before they are stored, and intervals are 64-bit integers. */
  type Timing = c: Columns | (c.cron != "" ==> Parses(c.cron)) && MIN_INT <= c.interval <= MAX_INT
    witness Columns("", 0)

  /** A row of `scheduled_tasks`. */
  datatype Task = Task(
    timing: Timing,
    enabled: bool,
    lastRun: Option<int>,
    nextRun: Option<int>,
    runCount: nat,
    errorCount: nat)

  /** A failed run either never reached the worker or failed there. */
  datatype Status = Running | Completed | Undelivered | Failed

  /** The text in the status column: a run that was never delivered is stored as one that failed. */
  function Stored(status: Status): string {
    match status
    case Running => "running"
    case Completed => "completed"
    case Undelivered => "failed"
    case Failed => "failed"
  }

  datatype TaskRun = TaskRun(task: nat, at: int, status: Status)

  /** The two tables, a run's id being its place plus one, and the runs whose command the worker still holds. */
  datatype Store = Store(tasks: map<nat, Task>, runs: seq<TaskRun>, inbox: set<nat>)

  predicate Recurs(c: Timing) { c.cron != "" || c.interval > 0 }

  /** Multiplying the interval into a 64-bit count of nanoseconds may wrap. */
  function NextRun(c: Timing, now: int): int
    requires Recurs(c)
  {
    if c.cron != "" then NextFiring(c.cron, now) else now + Wrapped(c.interval * SECOND)
  }

  predicate Due(t: Task, now: int) { t.enabled && t.nextRun.Some? && t.nextRun.value <= now }

  function DueIds(tasks: map<nat, Task>, now: int): set<nat> {
    set id | id in tasks && Due(tasks[id], now)
  }

  function Rescheduled(t: Task, now: int): Task {
    if Recurs(t.timing) then t.(lastRun := Some(now), nextRun := Some(NextRun(t.timing, now)))
    else t.(enabled := false, lastRun := Some(now))
  }

  /** One due task: a run row, a command to the worker unless it is lost, and the next run. */
  function DispatchOne(s: Store, id: nat, now: int, lost: set<nat>): Store
    requires id in s.tasks
  {
    var run := |s.runs|;
    Store(s.tasks[id := Rescheduled(s.tasks[id], now)],
          s.runs + [TaskRun(id, now, if run in lost then Undelivered else Running)],
          if run in lost then s.inbox else s.inbox + {run})
  }

  function Dispatched(s: Store, order: seq<nat>, now: int, lost: set<nat>): (r: Store)
    requires forall id :: id in order ==> id in s.tasks
    ensures r.tasks.Keys == s.tasks.Keys
  {
    if order == [] then s
    else DispatchOne(Dispatched(s, order[..|order| - 1], now, lost), order[|order| - 1], now, lost)
  }

  ghost predicate Distinct(order: seq<nat>) {
    forall i, j :: 0 <= i < j < |order| ==> order[i] != order[j]
  }

  /** `order` lists the tasks due at `now`, each once; the query leaves the order open. */
  ghost predicate ListsDue(order: seq<nat>, tasks: map<nat, Task>, now: int) {
    (forall id: nat :: id in order <==> id in DueIds(tasks, now)) && Distinct(order)
  }

  predicate Uninitialized(t: Task) { t.enabled && t.nextRun.None? }

  function Initialize(t: Task, now: int): Task {
    if Uninitialized(t) && Recurs(t.timing) then t.(nextRun := Some(NextRun(t.timing, now))) else t
  }

  function Initialized(tasks: map<nat, Task>, now: int): map<nat, Task> {
    map id | id in tasks :: Initialize(tasks[id], now)
  }

  function Finished(t: Task, success: bool): Task {
    if success then t.(runCount := t.runCount + 1) else t.(errorCount := t.errorCount + 1)
  }

  function Ended(runs: seq<TaskRun>, run: nat, success: bool): seq<TaskRun> {
    if run < |runs| then runs[run := runs[run].(status := if success then Completed else Failed)] else runs
  }

  function Counted(tasks: map<nat, Task>, task: nat, success: bool): map<nat, Task> {
    if task in tasks then tasks[task := Finished(tasks[task], success)] else tasks
  }

  function Finalized(s: Store, run: nat, task: nat, success: bool): Store {
    Store(Counted(s.tasks, task, success), Ended(s.runs, run, success), s.inbox)
  }

  method ComputeNextRun(c: Timing, now: int) returns (next: Option<int>)
    ensures next == if Recurs(c) then Some(NextRun(c, now)) else None
  {
    hide Parses, NextFiring, FieldsEnd, Wrapped;
    if c.cron != "" {
      var t := NextTime(c.cron, now);
      return Some(t);
    }
    if c.interval > 0 {
      return Some(now + Wrapped(c.interval * SECOND));
    }
    next := None;
  }

  class Site {
    var tasks: map<nat, Task>
    var runs: seq<TaskRun>
    var inbox: set<nat>

    ghost function Contents(): Store reads this { Store(tasks, runs, inbox) }

    method InitializeNextRun(now: int)
      modifies this`tasks
      ensures tasks == Initialized(old(tasks), now)
    {
      hide Parses, NextRun, Recurs;
      var pending := set id | id in tasks && Uninitialized(tasks[id]);
      while pending != {}
        invariant pending <= tasks.Keys == old(tasks).Keys
        invariant forall id :: id in pending ==> tasks[id] == old(tasks)[id] && Uninitialized(tasks[id])
        invariant forall id :: id in tasks && id !in pending ==> tasks[id] == Initialize(old(tasks)[id], now)
        decreases |pending|
      {
        var id :| id in pending;
        var next := ComputeNextRun(tasks[id].timing, now);
        if next.Some? {
          tasks := tasks[id := tasks[id].(nextRun := next)];
        }
        pending := pending - {id};
      }
    }

    /** Records the run, sends the command unless it is in `lost`, and computes the next run. */
    method Dispatch(id: nat, now: int, lost: set<nat>)
      requires id in tasks
      modifies this
      ensures Contents() == DispatchOne(old(Contents()), id, now, lost)
    {
      hide Parses, NextRun, Recurs;
      var run := |runs|;
      runs := runs + [TaskRun(id, now, Running)];
      if run in lost {
        runs := runs[run := runs[run].(status := Undelivered)];
      } else {
        inbox := inbox + {run};
      }
      var t := tasks[id];
      var next := ComputeNextRun(t.timing, now);
      if next.Some? {
        tasks := tasks[id := t.(lastRun := Some(now), nextRun := next)];
      } else {
        tasks := tasks[id := t.(enabled := false, lastRun := Some(now))];
      }
    }

    /** Dispatches every due task; the commands of the runs in `lost` do not reach the worker. */
    method CheckDueTasks(now: int, lost: set<nat>) returns (order: seq<nat>)
      modifies this
      ensures ListsDue(order, old(tasks), now)
      ensures Contents() == Dispatched(old(Contents()), order, now, lost)
    {
      hide Parses, Due, Rescheduled;
      order := [];
      var due := DueIds(tasks, now);
      while due != {}
        invariant due <= old(tasks).Keys && forall id :: id in order ==> id in old(tasks)
        invariant Contents() == Dispatched(old(Contents()), order, now, lost)
        invariant forall id :: id in due ==> id !in order
        invariant forall id: nat :: id in order || id in due <==> id in DueIds(old(tasks), now)
        invariant Distinct(order)
        decreases |due|
      {
        var id :| id in due;
        Dispatch(id, now, lost);
        assert (order + [id])[..|order|] == order;
        order, due := order + [id], due - {id};
      }
    }

    method EndRun(run: nat, success: bool)
      modifies this`runs
      ensures runs == Ended(old(runs), run, success)
    {
      if run < |runs| {
        runs := runs[run := runs[run].(status := if success then Completed else Failed)];
      }
    }

    method CountRun(task: nat, success: bool)
      modifies this`tasks
      ensures tasks == Counted(old(tasks), task, success)
    {
      if task in tasks {
        var t := tasks[task];
        tasks := tasks[task := if success then t.(runCount := t.runCount + 1) else t.(errorCount := t.errorCount + 1)];
      }
    }

    /** Called by the worker with the ids carried in its command; ids of rows start at 1. */
    method FinalizeTaskRun(runID: int, taskID: int, success: bool)
      modifies this
      ensures Contents() == if runID <= 0 then old(Contents())
                            else if taskID <= 0 then Finalized(old(Contents()), runID - 1, 0, success).(tasks := old(tasks))
                            else Finalized(old(Contents()), runID - 1, taskID as nat, success)
    {
      hide Ended, Counted;
      if runID <= 0 {
        return;
      }
      EndRun(runID - 1, success);
      if taskID > 0 {
        CountRun(taskID, success);
      }
    }
  }

  // One check.

  lemma {:induction false} DispatchedAt(s: Store, order: seq<nat>, now: int, lost: set<nat>, id: nat)
    requires (forall i :: i in order ==> i in s.tasks) && Distinct(order) && id in s.tasks
    ensures var r := Dispatched(s, order, now, lost);
            r.tasks[id] == if id in order then Rescheduled(s.tasks[id], now) else s.tasks[id]
    decreases |order|
  {
    hide Rescheduled;
    if order != [] {
      DispatchedAt(s, order[..|order| - 1], now, lost, id);
    }
  }

  function Runs(runs: seq<TaskRun>, id: nat): nat {
    if runs == [] then 0 else Runs(runs[..|runs| - 1], id) + if runs[|runs| - 1].task == id then 1 else 0
  }

  /** A check adds one run row for each task it lists, and none for any other. */
  lemma {:induction false} OneRunEach(s: Store, order: seq<nat>, now: int, lost: set<nat>, id: nat)
    requires (forall i :: i in order ==> i in s.tasks) && Distinct(order)
    ensures Runs(Dispatched(s, order, now, lost).runs, id) == Runs(s.runs, id) + if id in order then 1 else 0
    decreases |order|
  {
    hide Rescheduled;
    if order != [] {
      var front := order[..|order| - 1];
      OneRunEach(s, front, now, lost, id);
      var m := Dispatched(s, front, now, lost);
      assert Dispatched(s, order, now, lost).runs[..|m.runs|] == m.runs;
      assert order == front + [order[|order| - 1]];
    }
  }

  /** The interval is so long that in nanoseconds it wraps to the past. */
  predicate WrapsBack(c: Timing) { c.cron == "" && c.interval > 0 && Wrapped(c.interval * SECOND) <= 0 }

  lemma WrapsBackExample()
    ensures WrapsBack(Columns("", 9223372037))
  {
  }

  /** Right after a check nothing is due, except a due task whose interval wraps to the past: exactly those stay due. */
  lemma DueAfterCheck(s: Store, order: seq<nat>, now: int, lost: set<nat>, id: nat)
    requires ListsDue(order, s.tasks, now) && id in s.tasks
    ensures Due(Dispatched(s, order, now, lost).tasks[id], now) <==> Due(s.tasks[id], now) && WrapsBack(s.tasks[id].timing)
    ensures s.tasks[id].timing.interval <= 9223372036 ==> !WrapsBack(s.tasks[id].timing)
  {
    DispatchedAt(s, order, now, lost, id);
    var c := s.tasks[id].timing;
    if c.cron != "" {
      NextFiringMeaning(c.cron, now);
    }
  }

  /** `x` in a 64-bit count: whole turns are lost. */
  ghost predicate Turned(x: int, d: int) {
    -0x8000_0000_0000_0000 <= d < 0x8000_0000_0000_0000 && exists turns :: x - d == turns * 0x1_0000_0000_0000_0000
  }

  /** When a row with these columns runs next, after it was looked at. */
  ghost predicate RunsNext(c: Timing, now: int, next: Option<int>) {
    if c.cron != "" then next.Some? && FiresAt(c.cron, now, next.value)
    else if 0 < c.interval <= 9223372036 then next == Some(now + c.interval * 1_000_000_000)
    else if c.interval > 0 then next.Some? && Turned(c.interval * 1_000_000_000, next.value - now)
    else next.None?
  }

  lemma IntervalTurned(interval: int)
    requires 0 < interval <= MAX_INT
    ensures Turned(interval * 1_000_000_000, Wrapped(interval * SECOND))
    ensures interval <= 9223372036 ==> Wrapped(interval * SECOND) == interval * 1_000_000_000
  {
    hide Wrapped;
    var turns := WrappedTurns(interval * SECOND);
    assert interval * 1_000_000_000 - Wrapped(interval * SECOND) == turns * 0x1_0000_0000_0000_0000;
  }

  lemma NextRunMeans(c: Timing, now: int)
    ensures RunsNext(c, now, if Recurs(c) then Some(NextRun(c, now)) else None)
  {
    hide Wrapped, FiresAt, NextFiring, Turned, Parses, FieldsEnd;
    if c.cron != "" {
      NextFiringMeaning(c.cron, now);
    } else if c.interval > 0 {
      IntervalTurned(c.interval);
    }
  }

  /**
   A check, task by task: those that are enabled and due are marked as run now and given the time they run next, or
   disabled if they have no schedule; all others stay as they are.
   */
  lemma CheckReschedules(s: Store, order: seq<nat>, now: int, lost: set<nat>, id: nat)
    requires ListsDue(order, s.tasks, now) && id in s.tasks
    ensures var t, t' := s.tasks[id], Dispatched(s, order, now, lost).tasks[id];
            if t.enabled && t.nextRun.Some? && t.nextRun.value <= now then
              var recurs := t.timing.cron != "" || t.timing.interval > 0;
              && t' == Task(t.timing, recurs, Some(now), t'.nextRun, t.runCount, t.errorCount)
              && (if recurs then RunsNext(t.timing, now, t'.nextRun) else t'.nextRun == t.nextRun)
            else t' == t
  {
    hide RunsNext, NextRun;
    DispatchedAt(s, order, now, lost, id);
    NextRunMeans(s.tasks[id].timing, now);
    assert id in order <==> id in DueIds(s.tasks, now);
  }

  /** At startup the enabled tasks that have a schedule and no time to run get one; nothing else changes. */
  lemma StartupSchedules(tasks: map<nat, Task>, now: int, id: nat)
    requires id in tasks
    ensures Initialized(tasks, now).Keys == tasks.Keys
    ensures var t, t' := tasks[id], Initialized(tasks, now)[id];
            if t.enabled && t.nextRun.None? && (t.timing.cron != "" || t.timing.interval > 0)
            then t' == t.(nextRun := t'.nextRun) && RunsNext(t.timing, now, t'.nextRun)
            else t' == t
  {
    hide RunsNext, NextRun;
    NextRunMeans(tasks[id].timing, now);
  }

  /** A check, run by run: one row for each task listed, in their order, and a command for each that is not lost. */
  lemma {:induction false} CheckSends(s: Store, order: seq<nat>, now: int, lost: set<nat>)
    requires forall id :: id in order ==> id in s.tasks
    ensures var r, n := Dispatched(s, order, now, lost), |s.runs|;
            && |r.runs| == n + |order| && r.runs[..n] == s.runs
            && (forall k :: 0 <= k < |order| ==>
                  r.runs[n + k] == TaskRun(order[k], now, if n + k in lost then Undelivered else Running))
            && r.inbox == s.inbox + (set k | n <= k < n + |order| && k !in lost)
    decreases |order|
  {
    hide Rescheduled;
    if order != [] {
      var front := order[..|order| - 1];
      CheckSends(s, front, now, lost);
      assert order == front + [order[|order| - 1]];
    }
  }

  /** The end of a run, field by field. */
  lemma FinishWrites(s: Store, run: nat, task: nat, success: bool)
    requires run < |s.runs| && task in s.tasks
    ensures var r, t, t' := Finalized(s, run, task, success), s.tasks[task], Finalized(s, run, task, success).tasks[task];
            && |r.runs| == |s.runs| && r.inbox == s.inbox && r.tasks.Keys == s.tasks.Keys
            && r.runs[run] == TaskRun(s.runs[run].task, s.runs[run].at, if success then Completed else Failed)
            && (forall k :: 0 <= k < |s.runs| && k != run ==> r.runs[k] == s.runs[k])
            && t' == Task(t.timing, t.enabled, t.lastRun, t.nextRun, if success then t.runCount + 1 else t.runCount,
                          if success then t.errorCount else t.errorCount + 1)
            && forall id :: id in s.tasks && id != task ==> r.tasks[id] == s.tasks[id]
  {
  }

  // Whole runs.

  datatype Event =
    | Check(now: int, order: seq<nat>, lost: set<nat>)
    | Startup(now: int)
    | Finish(run: nat, success: bool)
    | Abandon(runs: set<nat>)
    | Toggle(id: nat)
    | Create(id: nat, task: Task)

  predicate New(t: Task) { t.lastRun == None && t.runCount == 0 == t.errorCount }

  ghost predicate Legal(s: Store, e: Event) {
    match e
    case Check(now, order, lost) => ListsDue(order, s.tasks, now)
    case Startup(_) => true
    case Finish(run, _) => run in s.inbox && run < |s.runs|
    case Abandon(_) => true
    case Toggle(id) => id in s.tasks
    case Create(id, t) => id > 0 && id !in s.tasks && New(t)
  }

  function Step(s: Store, e: Event): Store
    requires Legal(s, e)
  {
    match e
    case Check(now, order, lost) => Dispatched(s, order, now, lost)
    case Startup(now) => s.(tasks := Initialized(s.tasks, now))
    case Finish(run, success) => Finalized(s, run, s.runs[run].task, success).(inbox := s.inbox - {run})
    case Abandon(runs) => s.(inbox := s.inbox - runs)
    case Toggle(id) => s.(tasks := s.tasks[id := s.tasks[id].(enabled := !s.tasks[id].enabled)])
    case Create(id, t) => s.(tasks := s.tasks[id := t])
  }

  /** Where the events lead, if each of them is possible when it comes. */
  ghost function After(start: Store, events: seq<Event>): Option<Store> {
    if events == [] then Some(start) else
      match After(start, events[..|events| - 1])
      case None => None
      case Some(s) => var e := events[|events| - 1]; if Legal(s, e) then Some(Step(s, e)) else None
  }

  ghost predicate Run(start: Store, events: seq<Event>, end: Store) { After(start, events) == Some(end) }

  predicate Fresh(s: Store) {
    s.runs == [] && s.inbox == {} && 0 !in s.tasks && forall id :: id in s.tasks ==> New(s.tasks[id])
  }

  // What every run keeps.

  function LastAt(runs: seq<TaskRun>, id: nat): Option<int> {
    if runs == [] then None
    else if runs[|runs| - 1].task == id then Some(runs[|runs| - 1].at)
    else LastAt(runs[..|runs| - 1], id)
  }

  /** No run of the task starts before the time that its schedule gives after the run before it. */
  predicate OnSchedule(runs: seq<TaskRun>, id: nat, c: Timing) {
    runs == [] || (
      var front, last := runs[..|runs| - 1], runs[|runs| - 1];
      OnSchedule(front, id, c) && InTime(front, last, id, c))
  }

  predicate InTime(before: seq<TaskRun>, run: TaskRun, id: nat, c: Timing) {
    run.task == id && Recurs(c) ==>
      match LastAt(before, id) case None => true case Some(at) => NextRun(c, at) <= run.at
  }

  function Count(runs: seq<TaskRun>, id: nat, status: Status): nat {
    if runs == [] then 0
    else Count(runs[..|runs| - 1], id, status) + if runs[|runs| - 1].task == id && runs[|runs| - 1].status == status then 1 else 0
  }

  function CountStored(runs: seq<TaskRun>, id: nat, text: string): nat {
    if runs == [] then 0
    else CountStored(runs[..|runs| - 1], id, text)
         + if runs[|runs| - 1].task == id && Stored(runs[|runs| - 1].status) == text then 1 else 0
  }

  /** The row of a task agrees with its runs. */
  predicate Kept(t: Task, id: nat, runs: seq<TaskRun>) {
    && t.lastRun == LastAt(runs, id)
    && (t.lastRun.Some? && Recurs(t.timing) ==> t.nextRun == Some(NextRun(t.timing, t.lastRun.value)))
    && OnSchedule(runs, id, t.timing)
    && t.runCount == Count(runs, id, Completed)
    && t.errorCount == Count(runs, id, Failed)
  }

  ghost predicate Inv(s: Store) {
    && 0 !in s.tasks
    && (forall k :: 0 <= k < |s.runs| ==> s.runs[k].task in s.tasks)
    && (forall run :: run in s.inbox ==> run < |s.runs| && s.runs[run].status == Running)
    && forall id :: id in s.tasks ==> Kept(s.tasks[id], id, s.runs)
  }

  lemma KeptByDispatch(s: Store, id: nat, now: int, lost: set<nat>, other: nat)
    requires other in s.tasks && Kept(s.tasks[other], other, s.runs)
    requires id in s.tasks && s.tasks[id].nextRun.Some? && s.tasks[id].nextRun.value <= now
    ensures var r := DispatchOne(s, id, now, lost); Kept(r.tasks[other], other, r.runs)
  {
    hide NextRun, Recurs;
    var r := DispatchOne(s, id, now, lost);
    assert r.runs[..|s.runs|] == s.runs;
  }

  lemma {:induction false} CheckKeeps(s: Store, order: seq<nat>, now: int, lost: set<nat>)
    requires Inv(s) && Distinct(order)
    requires forall id :: id in order ==> id in s.tasks && Due(s.tasks[id], now)
    ensures Inv(Dispatched(s, order, now, lost))
    decreases |order|
  {
    hide Inv, Kept, Rescheduled, DispatchOne;
    if order != [] {
      var front, id := order[..|order| - 1], order[|order| - 1];
      CheckKeeps(s, front, now, lost);
      DispatchedAt(s, front, now, lost, id);
      assert id !in front;
      DispatchKeeps(Dispatched(s, front, now, lost), id, now, lost);
    }
  }

  lemma DispatchKeeps(s: Store, id: nat, now: int, lost: set<nat>)
    requires Inv(s) && id in s.tasks && Due(s.tasks[id], now)
    ensures Inv(DispatchOne(s, id, now, lost))
  {
    hide Kept, Rescheduled;
    var r := DispatchOne(s, id, now, lost);
    forall other | other in s.tasks ensures Kept(r.tasks[other], other, r.runs) {
      KeptByDispatch(s, id, now, lost, other);
    }
  }

  lemma OneRunMore(front: seq<TaskRun>, last: TaskRun, id: nat, c: Timing, counted: Status)
    ensures LastAt(front + [last], id) == if last.task == id then Some(last.at) else LastAt(front, id)
    ensures OnSchedule(front + [last], id, c) <==> OnSchedule(front, id, c) && InTime(front, last, id, c)
    ensures Count(front + [last], id, counted)
         == Count(front, id, counted) + if last.task == id && last.status == counted then 1 else 0
  {
    hide NextRun, Recurs;
    assert (front + [last])[..|front|] == front;
  }

  lemma {:induction false} StatusChanged(runs: seq<TaskRun>, k: nat, status: Status, id: nat, c: Timing, counted: Status)
    requires k < |runs| && runs[k].status != status
    ensures var r := runs[k := runs[k].(status := status)];
            && LastAt(r, id) == LastAt(runs, id)
            && (OnSchedule(r, id, c) <==> OnSchedule(runs, id, c))
            && Count(r, id, counted) == Count(runs, id, counted)
               + (if runs[k].task == id && counted == status then 1 else 0)
               - (if runs[k].task == id && counted == runs[k].status then 1 else 0)
    decreases |runs|
  {
    hide LastAt, OnSchedule, Count, NextRun, Recurs;
    var r, n := runs[k := runs[k].(status := status)], |runs| - 1;
    assert runs == runs[..n] + [runs[n]] && r == r[..n] + [r[n]];
    OneRunMore(runs[..n], runs[n], id, c, counted);
    OneRunMore(r[..n], r[n], id, c, counted);
    if k == n {
      assert r[..n] == runs[..n];
    } else {
      assert r[..n] == runs[..n][k := runs[k].(status := status)];
      StatusChanged(runs[..n], k, status, id, c, counted);
    }
  }

  lemma FinishKeeps(s: Store, run: nat, success: bool)
    requires Inv(s) && Legal(s, Finish(run, success))
    ensures Inv(Step(s, Finish(run, success)))
  {
    hide NextRun, Recurs, OnSchedule, LastAt;
    var r := Step(s, Finish(run, success));
    var status := if success then Completed else Failed;
    forall id | id in s.tasks ensures Kept(r.tasks[id], id, r.runs) {
      StatusChanged(s.runs, run, status, id, s.tasks[id].timing, Completed);
      StatusChanged(s.runs, run, status, id, s.tasks[id].timing, Failed);
    }
  }

  lemma {:induction false} NoRuns(runs: seq<TaskRun>, id: nat, c: Timing)
    requires forall k :: 0 <= k < |runs| ==> runs[k].task != id
    ensures LastAt(runs, id) == None && OnSchedule(runs, id, c)
    ensures forall status :: Count(runs, id, status) == 0
    decreases |runs|
  {
    if runs != [] {
      NoRuns(runs[..|runs| - 1], id, c);
    }
  }

  lemma StepKeeps(s: Store, e: Event)
    requires Inv(s) && Legal(s, e)
    ensures Inv(Step(s, e))
  {
    hide NextRun, Recurs, OnSchedule, LastAt, Count;
    match e
    case Check(now, order, lost) => CheckKeeps(s, order, now, lost);
    case Finish(run, success) => FinishKeeps(s, run, success);
    case Create(id, t) => NoRuns(s.runs, id, t.timing);
    case _ =>
  }

  lemma {:induction false} RunKeeps(start: Store, events: seq<Event>, end: Store)
    requires Fresh(start) && Run(start, events, end)
    ensures Inv(end)
    decreases |events|
  {
    if events != [] {
      var mid := After(start, events[..|events| - 1]).value;
      RunKeeps(start, events[..|events| - 1], mid);
      StepKeeps(mid, events[|events| - 1]);
    }
  }

  // What an owner can rely on.

  /** Every run of a task is counted as completed or failed, was never delivered, or has not ended. */
  lemma {:induction false} RunsAreAccountedFor(start: Store, events: seq<Event>, end: Store, id: nat)
    requires Fresh(start) && Run(start, events, end) && id in end.tasks
    ensures end.tasks[id].runCount == Count(end.runs, id, Completed)
    ensures end.tasks[id].errorCount == Count(end.runs, id, Failed)
    ensures Runs(end.runs, id) == end.tasks[id].runCount + end.tasks[id].errorCount
                                  + Count(end.runs, id, Undelivered) + Count(end.runs, id, Running)
    ensures end.tasks[id].errorCount == CountStored(end.runs, id, "failed") <==> Count(end.runs, id, Undelivered) == 0
  {
    RunKeeps(start, events, end);
    EveryStatus(end.runs, id);
  }

  /** The first check of a new task whose command is lost: a run is stored as failed, and error_count is 0. */
  lemma LostCommand(t: Task, now: int, start: Store, end: Store)
    requires New(t) && Due(t, now) && start == Store(map[1 := t], [], {}) && end == DispatchOne(start, 1, now, {0})
    ensures Fresh(start) && Run(start, [Check(now, [1], {0})], end)
    ensures end.tasks[1].errorCount == 0 && CountStored(end.runs, 1, "failed") == 1
  {
    hide NextRun, Legal, Step, Run, CountStored, New, Due;
    OneDispatch(start, 1, now, {0});
    OneCheck(start, end, Check(now, [1], {0}));
    OneStored(end.runs, now);
    NewCounters(t);
    hide DispatchOne;
  }

  lemma NewCounters(t: Task)
    requires New(t)
    ensures t.errorCount == 0
  {
  }

  lemma OneStored(runs: seq<TaskRun>, now: int)
    requires runs == [TaskRun(1, now, Undelivered)]
    ensures CountStored(runs, 1, "failed") == 1
  {
    assert runs[..0] == [];
  }

  lemma OneCheck(s: Store, end: Store, e: Event)
    requires Legal(s, e) && Step(s, e) == end
    ensures Run(s, [e], end)
  {
    hide Legal, Step;
    assert [e][..0] == [] && After(s, []) == Some(s);
  }

  lemma {:induction false} EveryStatus(runs: seq<TaskRun>, id: nat)
    ensures Runs(runs, id) == Count(runs, id, Completed) + Count(runs, id, Failed)
                              + Count(runs, id, Undelivered) + Count(runs, id, Running)
    ensures CountStored(runs, id, "failed") == Count(runs, id, Undelivered) + Count(runs, id, Failed)
    decreases |runs|
  {
    if runs != [] {
      EveryStatus(runs[..|runs| - 1], id);
    }
  }

  predicate Apart(runs: seq<TaskRun>, id: nat, d: int) {
    forall i, j :: 0 <= i < j < |runs| && runs[i].task == id && runs[j].task == id ==> runs[i].at + d <= runs[j].at
  }

  lemma {:induction false} OnScheduleApart(runs: seq<TaskRun>, id: nat, c: Timing)
    requires OnSchedule(runs, id, c) && c.cron == "" && c.interval > 0 && c.interval * SECOND <= MAX_INT
    ensures Apart(runs, id, c.interval * SECOND)
    ensures forall i :: 0 <= i < |runs| && runs[i].task == id ==>
              LastAt(runs, id).Some? && runs[i].at <= LastAt(runs, id).value
    decreases |runs|
  {
    if runs != [] {
      OnScheduleApart(runs[..|runs| - 1], id, c);
    }
  }

  /** In every run, whatever else happens, the runs of a task with this interval start at least the interval apart. */
  ghost predicate KeepsItsInterval(interval: int) {
    forall start, events, end, id ::
      Fresh(start) && Run(start, events, end) && id in end.tasks && end.tasks[id].timing == Columns("", interval) ==>
        Apart(end.runs, id, interval * SECOND)
  }

  /** True of exactly the intervals that fit in 64 bits of nanoseconds, up to 9223372036 seconds. */
  lemma IntervalsAreKept(interval: int)
    requires 0 < interval <= MAX_INT
    ensures KeepsItsInterval(interval) <==> interval <= 9223372036
  {
    if interval <= 9223372036 {
      forall start, events, end, id |
        Fresh(start) && Run(start, events, end) && id in end.tasks && end.tasks[id].timing == Columns("", interval)
        ensures Apart(end.runs, id, interval * SECOND)
      {
        RunKeeps(start, events, end);
        OnScheduleApart(end.runs, id, end.tasks[id].timing);
      }
    } else {
      TooSoon(interval);
    }
  }

  /** A longer interval wraps, and a second check comes too soon. */
  lemma TooSoon(interval: int)
    requires MAX_INT < interval * SECOND && interval <= MAX_INT
    ensures !KeepsItsInterval(interval)
  {
    hide KeepsItsInterval, Apart, Run, Legal, Step, Wrapped;
    var c: Timing := Columns("", interval);
    var wrapped := Wrapped(interval * SECOND);
    var later := if wrapped <= 0 then 0 else wrapped;
    var s0 := Store(map[1 := Task(c, true, None, Some(0), 0, 0)], [], {});
    var s1 := DispatchOne(s0, 1, 0, {});
    OneDispatch(s0, 1, 0, {});
    assert s1.tasks[1].nextRun == Some(wrapped);
    OneDispatch(s1, 1, later, {});
    var s2 := DispatchOne(s1, 1, later, {});
    TwoChecks(s0, s1, s2, Check(0, [1], {}), Check(later, [1], {}));
    assert !Apart(s2.runs, 1, interval * SECOND) by {
      CloseTogether(s2.runs, 1, interval * SECOND);
    }
    NotKept(interval, s0, [Check(0, [1], {}), Check(later, [1], {})], s2, 1);
  }

  lemma CloseTogether(runs: seq<TaskRun>, id: nat, d: int)
    requires |runs| >= 2 && runs[0].task == id && runs[1].task == id && runs[1].at < runs[0].at + d
    ensures !Apart(runs, id, d)
  {
  }

  lemma TwoChecks(s0: Store, s1: Store, s2: Store, first: Event, second: Event)
    requires Legal(s0, first) && Step(s0, first) == s1 && Legal(s1, second) && Step(s1, second) == s2
    ensures Run(s0, [first, second], s2)
  {
    hide Legal, Step;
    assert [first][..0] == [];
    assert [first, second][..1] == [first];
    assert After(s0, []) == Some(s0);
    assert After(s0, [first]) == Some(s1);
  }

  lemma OneDispatch(s: Store, id: nat, now: int, lost: set<nat>)
    requires s.tasks.Keys == {id} && Due(s.tasks[id], now)
    ensures Legal(s, Check(now, [id], lost)) && Step(s, Check(now, [id], lost)) == DispatchOne(s, id, now, lost)
  {
    hide DispatchOne;
    var none: seq<nat> := [];
    assert [id][..0] == none && Dispatched(s, none, now, lost) == s;
    assert Dispatched(s, [id], now, lost) == DispatchOne(s, id, now, lost);
    assert ListsDue([id], s.tasks, now);
  }

  lemma NotKept(interval: int, start: Store, events: seq<Event>, end: Store, id: nat)
    requires Fresh(start) && Run(start, events, end) && id in end.tasks
    requires end.tasks[id].timing == Columns("", interval) && !Apart(end.runs, id, interval * SECOND)
    ensures !KeepsItsInterval(interval)
  {
  }
}
