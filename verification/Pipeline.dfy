/**
 The pipeline worker of brain/pipeline.go and brain/stages.go over its persisted row
 (`pipeline_state`, written by the functions at the end of brain/plan.go).

 Every committed write is recorded in `history`, so that a crash after any write, and a restart from
 what was persisted then, are covered by statements about every entry of `history`.
 */
module Pipeline {
  import opened Wrappers

  datatype Stage = Plan | UpdatePlan | Build | Complete | Monitoring

  datatype Reason = OwnerAnswers | Approval | Failure

  /** The singleton row; `plan` is the stored plan_json, None when it is NULL. */
  datatype Row = Row(stage: Stage, plan: Option<string>, errorCount: nat, pause: Option<Reason>, update: Option<string>)

  const MAX_STAGE_RETRIES := 3

  // The writes of brain/plan.go, each one SQL statement.

  function Advanced(r: Row, stage: Stage): Row { r.(stage := stage, errorCount := 0) }
  function Reset(r: Row): Row { r.(stage := Plan, plan := None, errorCount := 0, pause := None) }
  function Paused(r: Row, reason: Reason): Row { r.(pause := Some(reason)) }
  function Resumed(r: Row): Row { r.(pause := None) }
  function ErrorCounted(r: Row): Row { r.(errorCount := r.errorCount + 1) }

  /** What a row must satisfy to be resumed from: the later stages need a plan to work on. */
  predicate HasItsPlan(r: Row) {
    r.stage in {Build, Complete, Monitoring} ==> r.plan.Some?
  }

  function Rank(s: Stage): nat {
    match s
    case Plan => 3
    case UpdatePlan => 3
    case Build => 2
    case Complete => 1
    case Monitoring => 0
  }

  /** Both planning stages lead to the build, and from there on. */
  predicate Follows(s: Stage, next: Stage) {
    match s
    case Plan => next == Build
    case UpdatePlan => next == Build
    case Build => next == Complete
    case Complete => next == Monitoring
    case Monitoring => false
  }

  /** How one persisted row may follow another: by progress, by a reset that drops the plan, or by an update request. */
  predicate Succeeds(r: Row, next: Row) {
    || (next.stage == r.stage && (r.plan.Some? ==> next.plan.Some?))
    || (Follows(r.stage, next.stage) && r.plan.Some? && next.plan == r.plan && next.errorCount == 0)
    || next == Reset(r)
    || next == Advanced(r, UpdatePlan)
  }

  ghost predicate Sound(history: seq<Row>) {
    && history != []
    && (forall i :: 0 <= i < |history| ==> HasItsPlan(history[i]))
    && (forall i :: 0 <= i < |history| - 1 ==> Succeeds(history[i], history[i + 1]))
  }

  // What the outside decides: model replies, tools, providers, panics and cancellation.

  datatype Result = Fails | Panics | PanicsBetweenWrites | PanicsAfterWrites | Asks | Works

  /**
   One run of a stage. `permanent` says whether its error reads as one that retrying cannot cure, `plan` is
   the plan it would store, `approval` whether the owner's approval was asked for meanwhile, by a tool of the stage
   or by the owner's chat, `cancelled` whether the worker's context ends before the run or in the backoff after it.
   */
  datatype Attempt = Attempt(result: Result, permanent: bool, plan: string, approval: bool, cancelled: bool)

  datatype Outcome = Next(stage: Stage) | Error

  datatype Verdict = Retry | Advance(stage: Stage) | Pause

  datatype Exit = ToMonitoring | ToPaused | Cancelled

  datatype Mode = BuildingMode | MonitoringMode | PausedMode | OtherMode

  datatype Command =
    | Wake(payload: Option<string>)
    | ModeChange(mode: Mode)
    | Update(description: string)
    | ScheduledTask(approval: bool)
    | Chat(approval: bool)
    | Shutdown

  /**
   What happens between stages: a command arrives, the timer of the monitoring loop goes off and its tick finds
   recent errors or not, or the owner's chat, which runs beside the worker, asks for an approval.
   */
  datatype Wakeup = Received(cmd: Command) | Tick(errors: bool, approval: bool) | OwnerChat

  datatype BrainState = Idle | Building | InMonitoring | InPause

  // What a command does, and what a wakeup outside the monitoring loop does.

  function RowAfter(r: Row, state: BrainState, cmd: Command): Row {
    match cmd
    case Wake(_) => if state.InPause? then Resumed(r) else r
    case ModeChange(BuildingMode) => Reset(r)
    case Update(d) => Advanced(r, UpdatePlan).(update := Some(d))
    case ScheduledTask(true) => Paused(r, Approval)
    case Chat(true) => if state.InMonitoring? then Paused(r, Approval) else r
    case _ => r
  }

  function StateAfter(state: BrainState, cmd: Command): BrainState {
    match cmd
    case Wake(_) => if state.InPause? then Building else state
    case ModeChange(BuildingMode) => Building
    case ModeChange(MonitoringMode) => InMonitoring
    case ModeChange(PausedMode) => InPause
    case Update(_) => Building
    case _ => state
  }

  function RowWoken(r: Row, state: BrainState, w: Wakeup): Row {
    match w
    case Received(cmd) => RowAfter(r, state, cmd)
    case Tick(_, _) => r
    case OwnerChat => Paused(r, Approval)
  }

  function StateWoken(state: BrainState, w: Wakeup): BrainState {
    match w
    case Received(cmd) => StateAfter(state, cmd)
    case _ => state
  }

  /** The row on which the stage loop is entered from a pause, if the wakeups lead there. */
  function Begins(r: Row, state: BrainState, wakeups: seq<Wakeup>): Option<Row>
    decreases |wakeups|, 0
  {
    if wakeups == [] then None else
      var next, after := RowWoken(r, state, wakeups[0]), StateWoken(state, wakeups[0]);
      match after
      case Building => Enters(next, wakeups[1..])
      case InMonitoring => None
      case _ => Begins(next, after, wakeups[1..])
  }

  /** The same from the beginning of runBuildPipeline: a paused row leads into the pause. */
  function Enters(r: Row, wakeups: seq<Wakeup>): Option<Row>
    decreases |wakeups|, 1
  {
    if r.pause.None? then Some(r) else Begins(r, InPause, wakeups)
  }

  /** A stage runs on this row, unless there is none to run or the worker is stopped. */
  predicate Starts(entered: Option<Row>, a: Attempt) {
    entered.Some? && !entered.value.stage.Monitoring? && !a.cancelled
  }

  /** The first stage that runs after `before` is the one the row entered on names, and none runs without such a row. */
  predicate FirstRun(before: seq<Stage>, log: seq<Stage>, entered: Option<Row>, a: Attempt) {
    && |before| <= |log|
    && (|before| < |log| <==> Starts(entered, a))
    && (Starts(entered, a) ==> log[|before|] == entered.value.stage)
  }

  predicate AsksApproval(w: Wakeup) { w == OwnerChat || w == Received(ScheduledTask(true)) }

  /** Wakeup `n` ends the pause: a wake, a change to building, or an update if neither the row nor an earlier wakeup pauses it. */
  predicate EndsPause(r: Row, wakeups: seq<Wakeup>, n: nat) {
    && n < |wakeups| && wakeups[n].Received?
    && (forall k :: 0 <= k < n ==> wakeups[k] != Received(ModeChange(MonitoringMode)))
    && match wakeups[n].cmd
       case Wake(_) => true
       case ModeChange(mode) => mode.BuildingMode?
       case Update(_) => r.pause.None? && forall k :: 0 <= k < n ==> !AsksApproval(wakeups[k])
       case _ => false
  }

  /** The stage loop is entered from a pause exactly when some wakeup ends it. */
  lemma {:induction false} PauseEnds(r: Row, wakeups: seq<Wakeup>)
    ensures Begins(r, InPause, wakeups).Some? <==> exists n :: EndsPause(r, wakeups, n)
    decreases |wakeups|
  {
    if wakeups != [] {
      var w, rest := wakeups[0], wakeups[1..];
      var next := RowWoken(r, InPause, w);
      PauseEnds(next, rest);
      if EndsPause(r, wakeups, 0) {
      } else if w != Received(ModeChange(MonitoringMode)) {
        assert next.pause.None? <==> r.pause.None? && !AsksApproval(w);
        assert Begins(r, InPause, wakeups) == Begins(next, InPause, rest);
        assert wakeups == [w] + rest;
        if n: nat :| EndsPause(r, wakeups, n) {
          EndsPauseLater(r, next, w, rest, n - 1);
        }
        if n: nat :| EndsPause(next, rest, n) {
          EndsPauseLater(r, next, w, rest, n);
        }
      }
    }
  }

  lemma EndsPauseLater(r: Row, next: Row, w: Wakeup, rest: seq<Wakeup>, n: nat)
    requires w != Received(ModeChange(MonitoringMode)) && (next.pause.None? <==> r.pause.None? && !AsksApproval(w))
    ensures EndsPause(r, [w] + rest, n + 1) <==> EndsPause(next, rest, n)
  {
    var all := [w] + rest;
    assert all[0] == w && forall k :: 0 < k < |all| ==> all[k] == rest[k - 1];
    assert forall k :: 0 <= k < |rest| ==> rest[k] == all[k + 1];
  }

  /** An update in a pause starts the update stage exactly when the row is not paused; otherwise its request waits for what comes next. */
  lemma UpdateInPause(r: Row, d: string, rest: seq<Wakeup>)
    ensures var updated := Advanced(r, UpdatePlan).(update := Some(d));
            Begins(r, InPause, [Received(Update(d))] + rest) ==
              if r.pause.None? then Some(updated) else Begins(updated, InPause, rest)
  {
    assert ([Received(Update(d))] + rest)[1..] == rest;
  }

  /** The row after `autoRecover`; `answers` is None when the answers cannot be read. */
  function Recovered(r: Row, pendingQuestions: nat, answers: Option<string>): Row {
    if r.errorCount >= MAX_STAGE_RETRIES then r
    else r.(errorCount := 0, pause := match r.pause
                                      case Some(Approval) => Some(Approval)
                                      case Some(OwnerAnswers) =>
                                        if pendingQuestions == 0 && answers.Some? then None else Some(OwnerAnswers)
                                      case _ => None)
  }

  /** The row on which a worker started in some mode enters the stage loop. */
  function RunEnters(r: Row, mode: Mode, pendingQuestions: nat, answers: Option<string>, wakeups: seq<Wakeup>): Option<Row> {
    match mode
    case BuildingMode =>
      if r.errorCount >= MAX_STAGE_RETRIES then Begins(r, InPause, wakeups)
      else Enters(Recovered(r, pendingQuestions, answers), wakeups)
    case MonitoringMode => None
    case PausedMode => Begins(r, InPause, wakeups)
    case OtherMode => Begins(r, Idle, wakeups)
  }

  /** A worker restarted while an approval is awaited enters the stages exactly when a wakeup ends the pause. */
  lemma ApprovalKept(r: Row, pendingQuestions: nat, answers: Option<string>, wakeups: seq<Wakeup>)
    requires r.pause == Some(Approval)
    ensures RunEnters(r, BuildingMode, pendingQuestions, answers, wakeups).Some? <==> exists n :: EndsPause(r, wakeups, n)
  {
    var q := Recovered(r, pendingQuestions, answers);
    PauseEnds(r, wakeups);
    PauseEnds(q, wakeups);
    assert forall n: nat :: EndsPause(q, wakeups, n) <==> EndsPause(r, wakeups, n);
    hide Begins, EndsPause;
  }

  /** Without a wakeup an awaited approval keeps every worker out of the stages. */
  lemma AwaitingEntersNot(r: Row, mode: Mode, pendingQuestions: nat, answers: Option<string>)
    requires r.pause == Some(Approval)
    ensures RunEnters(r, mode, pendingQuestions, answers, []) == None
  {
    assert Begins(r, InPause, []) == None;
  }

  /** The row and the state that each command leaves, field by field. */
  lemma CommandLeaves(r: Row, state: BrainState, payload: Option<string>, d: string)
    ensures RowAfter(r, InPause, Wake(payload)) == Row(r.stage, r.plan, r.errorCount, None, r.update)
    ensures state != InPause ==> RowAfter(r, state, Wake(payload)) == r
    ensures RowAfter(r, state, ModeChange(BuildingMode)) == Row(Plan, None, 0, None, r.update)
    ensures RowAfter(r, state, Update(d)) == Row(UpdatePlan, r.plan, 0, r.pause, Some(d))
    ensures RowAfter(r, state, ScheduledTask(true)) == Row(r.stage, r.plan, r.errorCount, Some(Approval), r.update)
            == RowAfter(r, InMonitoring, Chat(true))
    ensures RowAfter(r, state, ModeChange(MonitoringMode)) == RowAfter(r, state, ModeChange(PausedMode)) == r
            == RowAfter(r, state, ModeChange(OtherMode)) == RowAfter(r, state, ScheduledTask(false))
            == RowAfter(r, state, Chat(false)) == RowAfter(r, state, Shutdown)
    ensures StateAfter(InPause, Wake(payload)) == Building == StateAfter(state, ModeChange(BuildingMode)) == StateAfter(state, Update(d))
    ensures StateAfter(state, ModeChange(MonitoringMode)) == InMonitoring && StateAfter(state, ModeChange(PausedMode)) == InPause
    ensures StateAfter(state, ModeChange(OtherMode)) == StateAfter(state, ScheduledTask(true)) == state
            == StateAfter(state, ScheduledTask(false)) == StateAfter(state, Chat(true)) == StateAfter(state, Chat(false))
            == StateAfter(state, Shutdown)
    ensures state != InMonitoring ==> RowAfter(r, state, Chat(true)) == r
    ensures state != InPause ==> StateAfter(state, Wake(payload)) == state
  {
  }

  function Count(log: seq<Stage>, s: Stage): nat {
    if log == [] then 0 else Count(log[..|log| - 1], s) + if log[|log| - 1] == s then 1 else 0
  }

  /** The stages run in a row: never back to an earlier one. */
  predicate Descending(log: seq<Stage>) {
    forall i :: 0 <= i < |log| - 1 ==> log[i] == log[i + 1] || Follows(log[i], log[i + 1])
  }

  /** The runs of one stage loop that began at `from`: forward only, and at most three of each stage. */
  ghost predicate RanWithin(from: Stage, ran: seq<Stage>) {
    && Descending(ran)
    && (ran != [] ==> ran[0] == from)
    && |ran| <= MAX_STAGE_RETRIES * Rank(from)
    && forall s :: Count(ran, s) <= MAX_STAGE_RETRIES
  }

  /** The same, inside the loop: `stage` is due next and has been run `retries` times. */
  ghost predicate RanSoFar(from: Stage, ran: seq<Stage>, stage: Stage, retries: nat) {
    && Descending(ran)
    && (ran == [] ==> stage == from)
    && (ran != [] ==> ran[0] == from && if retries == 0 then Follows(ran[|ran| - 1], stage) else ran[|ran| - 1] == stage)
    && (stage.Monitoring? ==> retries == 0)
    && retries <= MAX_STAGE_RETRIES
    && |ran| <= MAX_STAGE_RETRIES * (Rank(from) - Rank(stage)) + retries
    && (forall s :: Count(ran, s) <= MAX_STAGE_RETRIES)
    && (forall s :: Rank(s) < Rank(stage) ==> Count(ran, s) == 0)
    && Count(ran, stage) == retries
  }

  lemma CountMore(log: seq<Stage>, stage: Stage)
    ensures forall s :: Count(log + [stage], s) == Count(log, s) + if s == stage then 1 else 0
  {
    assert (log + [stage])[..|log|] == log;
  }

  lemma RanStart(from: Stage)
    ensures RanSoFar(from, [], from, 0)
  {
  }

  lemma RanAgain(from: Stage, ran: seq<Stage>, stage: Stage, retries: nat)
    requires RanSoFar(from, ran, stage, retries) && !stage.Monitoring? && retries < MAX_STAGE_RETRIES
    ensures RanSoFar(from, ran + [stage], stage, retries + 1)
  {
    CountMore(ran, stage);
  }

  lemma RanOn(from: Stage, ran: seq<Stage>, stage: Stage, retries: nat, next: Stage)
    requires RanSoFar(from, ran, stage, retries) && retries > 0 && Follows(stage, next)
    ensures RanSoFar(from, ran, next, 0)
  {
  }

  lemma RanEnough(from: Stage, ran: seq<Stage>, stage: Stage, retries: nat)
    requires RanSoFar(from, ran, stage, retries)
    ensures RanWithin(from, ran)
  {
  }

  class Worker {
    var row: Row
    var history: seq<Row>      // every version of the row that was committed, oldest first
    var stageLog: seq<Stage>   // one stage_log entry for every run of a stage
    var state: BrainState
    var wakeContext: Option<string>
    var idleCheckCount: nat
    const world: nat -> Attempt  // the n-th stage run of this worker

    ghost predicate Valid()
      reads this
    {
      Sound(history) && history[|history| - 1] == row && HasItsPlan(row)
    }

    /** What a method may do to the persisted row: add writes to it. */
    twostate predicate OnlyAppends()
      reads this
    {
      && |old(history)| <= |history| && history[..|old(history)|] == old(history)
      && |old(stageLog)| <= |stageLog| && stageLog[..|old(stageLog)|] == old(stageLog)
    }

    /** While a stage runs, every row it writes still names that stage. */
    twostate predicate StaysAt(stage: Stage)
      reads this
    {
      OnlyAppends() && forall i :: |old(history)| <= i < |history| ==> history[i].stage == stage
    }

    constructor (persisted: Row, world: nat -> Attempt)
      requires HasItsPlan(persisted)
      ensures Valid() && row == persisted && history == [persisted] && stageLog == [] && state == Idle
      ensures this.world == world
    {
      row, history, stageLog, state := persisted, [persisted], [], Idle;
      wakeContext, idleCheckCount := None, 0;
      this.world := world;
    }

    method Write(r: Row)
      requires Valid() && HasItsPlan(r) && Succeeds(row, r)
      modifies this`row, this`history
      ensures Valid() && row == r && history == old(history) + [r]
    {
      row, history := r, history + [r];
    }

    // Stages. Each returns the stage that follows or an error, after its own writes in order.

    method RunPlan(a: Attempt) returns (out: Outcome)
      requires Valid() && row.stage == Plan
      modifies this`row, this`history, this`wakeContext
      ensures Valid() && StaysAt(Plan)
      ensures row.stage == Plan && row.errorCount == old(row.errorCount) && row.update == old(row.update)
      ensures out.Next? <==> a.result.Works?
      ensures out.Next? ==> out.stage == Build && row.plan == Some(a.plan) && row.pause == old(row.pause) && wakeContext.None?
      ensures out.Error? ==> wakeContext == old(wakeContext)
      ensures row.pause == if a.result.Asks? then Some(OwnerAnswers) else old(row.pause)
      ensures row.plan == if a.result in {PanicsAfterWrites, Works} then Some(a.plan) else old(row.plan)
    {
      if a.result in {Fails, Panics, PanicsBetweenWrites} {
        return Error;
      }
      if a.result.Asks? {
        Write(Paused(row, OwnerAnswers));
        return Error;
      }
      Write(row.(plan := Some(a.plan)));
      if a.result.PanicsAfterWrites? {
        return Error;
      }
      wakeContext := None;
      out := Next(Build);
    }

    method RunUpdatePlan(a: Attempt) returns (out: Outcome)
      requires Valid() && row.stage == UpdatePlan
      modifies this`row, this`history
      ensures Valid() && StaysAt(UpdatePlan)
      ensures row.stage == UpdatePlan && row.errorCount == old(row.errorCount) && row.pause == old(row.pause)
      ensures out.Next? <==> a.result.Works? && old(row.plan).Some?
      ensures out.Next? ==> out.stage == Build
      ensures row == if old(row.plan).None? || a.result in {Fails, Panics, Asks} then old(row)
                     else if a.result.PanicsBetweenWrites? then old(row).(update := None)
                     else old(row).(update := None, plan := Some(a.plan))
    {
      var existing := row.plan;
      if a.result in {Fails, Panics, Asks} || existing.None? {
        return Error;
      }
      Write(row.(update := None));
      if a.result.PanicsBetweenWrites? {
        return Error;
      }
      Write(row.(plan := Some(a.plan)));
      if a.result.PanicsAfterWrites? {
        return Error;
      }
      out := Next(Build);
    }

    method RunBuild(a: Attempt) returns (out: Outcome)
      requires Valid() && row.stage == Build
      ensures row.plan.Some?
      ensures out == if a.result.Works? then Next(Complete) else Error
    {
      // The row of a BUILD stage has a plan, so loading it does not fail; its tools work on the site, not on the row.
      assert row.plan.Some?;
      out := if a.result.Works? then Next(Complete) else Error;
    }

    method RunComplete(a: Attempt) returns (out: Outcome)
      requires Valid() && row.stage == Complete
      ensures out == if a.result.Works? then Next(Monitoring) else Error
    {
      // Anything but success here is a panic.
      out := if a.result.Works? then Next(Monitoring) else Error;
    }

    method RunStage(stage: Stage, a: Attempt) returns (out: Outcome)
      requires Valid() && row.stage == stage && !stage.Monitoring?
      modifies this`row, this`history, this`wakeContext, this`stageLog
      ensures Valid() && StaysAt(stage) && stageLog == old(stageLog) + [stage]
      ensures row.stage == stage && row.errorCount == old(row.errorCount)
      ensures out.Next? ==> Follows(stage, out.stage) && row.plan.Some?
      ensures out.Next? <==> a.result.Works? && (stage.UpdatePlan? ==> old(row.plan).Some?)
      ensures stage.UpdatePlan? && old(row.plan).None? ==> row.plan.None?
      ensures row.pause == if a.approval then Some(Approval)
                           else if stage.Plan? && a.result.Asks? then Some(OwnerAnswers)
                           else old(row.pause)
    {
      stageLog := stageLog + [stage];
      match stage {
        case Plan => out := RunPlan(a);
        case UpdatePlan => out := RunUpdatePlan(a);
        case Build => out := RunBuild(a);
        case Complete => out := RunComplete(a);
      }
      if a.approval {
        Write(Paused(row, Approval));
      }
    }

    method PauseOnFailure()
      requires Valid()
      modifies this`row, this`history, this`state
      ensures Valid() && StaysAt(row.stage) && row == Paused(old(row), Failure) && state.InPause?
    {
      Write(Paused(row, Failure));
      state := InPause;
    }

    /** One round of the stage loop: run the stage, then retry it, pause, or advance. */
    method RunOnce(stage: Stage, stageRetries: nat, a: Attempt) returns (verdict: Verdict)
      requires Valid() && row.stage == stage && !stage.Monitoring? && stageRetries < MAX_STAGE_RETRIES
      modifies this
      ensures Valid() && OnlyAppends() && stageLog == old(stageLog) + [stage]
      ensures forall i :: |old(history)| <= i < |history| ==> history[i].stage in {stage, row.stage}
      ensures verdict.Advance? <==> a.result.Works? && (stage.UpdatePlan? ==> old(row.plan).Some?)
      ensures verdict.Retry? ==> row.stage == stage && stageRetries + 1 < MAX_STAGE_RETRIES && !a.permanent
      ensures verdict.Retry? ==> row.pause.None? && row.errorCount == old(row.errorCount) + 1
      ensures verdict.Advance? ==> row.stage == verdict.stage && Follows(stage, verdict.stage) && row.errorCount == 0
      ensures verdict.Advance? ==> Rank(verdict.stage) < Rank(stage)
      ensures verdict.Pause? ==> row.stage == stage && row.pause.Some? && state.InPause?
      ensures verdict.Pause? && old(row.pause).None? ==>
                if a.approval then row.pause == Some(Approval)
                else if stage.Plan? && a.result.Asks? then row.pause == Some(OwnerAnswers)
                else row.pause == Some(Failure) && (a.permanent || stageRetries + 1 == MAX_STAGE_RETRIES)
      ensures stage.UpdatePlan? && old(row.plan).None? ==> !verdict.Advance? && row.plan.None?
    {
      var out := RunStage(stage, a);
      match out
      case Error =>
        if row.pause.Some? {
          state := InPause;
          return Pause;
        }
        if a.permanent {
          PauseOnFailure();
          return Pause;
        }
        Write(ErrorCounted(row));
        if stageRetries + 1 >= MAX_STAGE_RETRIES {
          PauseOnFailure();
          return Pause;
        }
        return Retry;
      case Next(nextStage) =>
        Write(Advanced(row, nextStage));
        return Advance(nextStage);
    }

    /**
     The stage loop of runBuildPipeline. It ends, after at most three runs of each stage that was left, in
     monitoring, in a pause the row records, or because the worker was stopped.
     */
    method RunStages() returns (exit: Exit)
      requires Valid() && row.pause.None?
      modifies this
      ensures Valid() && OnlyAppends()
      ensures RanWithin(old(row.stage), stageLog[|old(stageLog)|..])
      ensures exit.ToMonitoring? ==> row.stage.Monitoring? && state.InMonitoring?
      ensures exit.ToPaused? ==> row.pause.Some? && state.InPause?
      ensures exit.Cancelled? ==> world(|stageLog|).cancelled
      ensures FirstRun(old(stageLog), stageLog, Some(old(row)), world(|old(stageLog)|))
      ensures exit.ToPaused? ==> |old(stageLog)| < |stageLog|
      ensures forall i :: |old(history)| <= i < |history| ==> Rank(history[i].stage) <= Rank(old(row.stage))
      ensures old(row.stage).UpdatePlan? && old(row.plan).None? ==> !exit.ToMonitoring? && row.stage.UpdatePlan?
    {
      hide RanSoFar, RanWithin, Sound, Rank, Follows, HasItsPlan, Count, Descending, Succeeds;
      var stage := row.stage;
      var stageRetries := 0;
      ghost var ran: seq<Stage> := [];
      RanStart(stage);
      while true
        invariant Valid() && OnlyAppends() && row.stage == stage
        invariant 0 <= stageRetries < MAX_STAGE_RETRIES && stageLog[|old(stageLog)|..] == ran
        invariant RanSoFar(old(row.stage), ran, stage, stageRetries)
        invariant Rank(stage) <= Rank(old(row.stage))
        invariant forall i :: |old(history)| <= i < |history| ==> Rank(history[i].stage) <= Rank(old(row.stage))
        invariant old(row.stage).UpdatePlan? && old(row.plan).None? ==> stage.UpdatePlan? && row.plan.None?
        invariant if ran == [] then stage == old(row.stage)
                  else ran[0] == old(row.stage) && Starts(Some(old(row)), world(|old(stageLog)|))
        decreases Rank(stage), MAX_STAGE_RETRIES - stageRetries
      {
        RanEnough(old(row.stage), ran, stage, stageRetries);
        var a := world(|stageLog|);
        if a.cancelled {
          return Cancelled;
        }
        if stage.Monitoring? {
          state := InMonitoring;
          return ToMonitoring;
        }
        var verdict := RunOnce(stage, stageRetries, a);
        RanAgain(old(row.stage), ran, stage, stageRetries);
        ran := ran + [stage];
        assert stageLog[|old(stageLog)|..] == ran;
        match verdict
        case Pause =>
          RanEnough(old(row.stage), ran, stage, stageRetries + 1);
          return ToPaused;
        case Retry =>
          stageRetries := stageRetries + 1;
        case Advance(nextStage) =>
          RanOn(old(row.stage), ran, stage, stageRetries + 1, nextStage);
          stage := nextStage;
          stageRetries := 0;
      }
    }

    // Commands and the loops between stages. A worker whose wakeups run out is stopped.

    method HandleCommand(cmd: Command)
      requires Valid()
      modifies this`row, this`history, this`state, this`wakeContext, this`idleCheckCount
      ensures Valid() && OnlyAppends()
      ensures row == RowAfter(old(row), old(state), cmd) && state == StateAfter(old(state), cmd)
      ensures wakeContext == if cmd.Wake? && cmd.payload.Some? then cmd.payload else old(wakeContext)
    {
      match cmd
      case Wake(payload) =>
        idleCheckCount := 0;
        if payload.Some? {
          wakeContext := payload;
        }
        if state.InPause? {
          Write(Resumed(row));
          state := Building;
        }
      case ModeChange(mode) =>
        match mode {
          case BuildingMode =>
            state := Building;
            Write(Reset(row));
          case MonitoringMode => state := InMonitoring;
          case PausedMode => state := InPause;
          case OtherMode =>
        }
      case Update(description) =>
        idleCheckCount := 0;
        state := Building;
        Write(row.(update := Some(description)));
        Write(Advanced(row, UpdatePlan));
      case ScheduledTask(approval) =>
        if approval {
          Write(Paused(row, Approval));
        }
      case Chat(approval) =>
        if state.InMonitoring? {
          idleCheckCount := 0;
          if approval {
            Write(Paused(row, Approval));
          }
        }
      case Shutdown =>
    }

    method RunBuildPipeline(wakeups: seq<Wakeup>)
      requires Valid()
      modifies this
      ensures Valid() && OnlyAppends()
      ensures FirstRun(old(stageLog), stageLog, Enters(old(row), wakeups), world(|old(stageLog)|))
      decreases |wakeups|, 1
    {
      if row.pause.Some? {
        state := InPause;
        RunPausedLoop(wakeups);
        return;
      }
      var exit := RunStages();
      match exit
      case ToMonitoring => RunMonitoringLoop(wakeups);
      case ToPaused => RunPausedLoop(wakeups);
      case Cancelled =>
    }

    /** A healthy tick only counts; with errors the model runs tools, and one of them may ask for an approval. */
    method MonitoringTick(errors: bool, approval: bool)
      requires Valid()
      modifies this`row, this`history, this`idleCheckCount
      ensures Valid() && OnlyAppends()
      ensures row == if errors && approval then Paused(old(row), Approval) else old(row)
      ensures idleCheckCount == if errors then 0 else old(idleCheckCount) + 1
    {
      if !errors {
        idleCheckCount := idleCheckCount + 1;
        return;
      }
      idleCheckCount := 0;
      if approval {
        Write(Paused(row, Approval));
      }
    }

    /** The monitoring loop handles commands for ever; it has no way back to the stages. */
    method RunMonitoringLoop(wakeups: seq<Wakeup>)
      requires Valid()
      modifies this`row, this`history, this`state, this`wakeContext, this`idleCheckCount
      ensures Valid() && OnlyAppends() && stageLog == old(stageLog)
    {
      for n := 0 to |wakeups|
        invariant Valid() && OnlyAppends()
      {
        match wakeups[n]
        case Received(cmd) => HandleCommand(cmd);
        case Tick(errors, approval) => MonitoringTick(errors, approval);
        case OwnerChat => Write(Paused(row, Approval));
      }
    }

    method RunPausedLoop(wakeups: seq<Wakeup>)
      requires Valid() && state in {InPause, Idle}
      modifies this
      ensures Valid() && OnlyAppends()
      ensures FirstRun(old(stageLog), stageLog, Begins(old(row), old(state), wakeups), world(|old(stageLog)|))
      decreases |wakeups|, 0
    {
      var n := 0;
      while n < |wakeups|
        invariant 0 <= n <= |wakeups|
        invariant Valid() && OnlyAppends() && stageLog == old(stageLog) && state in {InPause, Idle}
        invariant Begins(row, state, wakeups[n..]) == Begins(old(row), old(state), wakeups)
      {
        assert wakeups[n..][1..] == wakeups[n + 1..];
        match wakeups[n] {
          case Received(cmd) => HandleCommand(cmd);
          case Tick(_, _) =>
          case OwnerChat => Write(Paused(row, Approval));
        }
        n := n + 1;
        if state.Building? {
          RunBuildPipeline(wakeups[n..]);
          return;
        }
        if state.InMonitoring? {
          RunMonitoringLoop(wakeups[n..]);
          return;
        }
      }
    }

    // Restart.

    /** `pendingQuestions` and `answers` are what the questions table holds; `answers` is None when reading them fails. */
    method AutoRecover(pendingQuestions: nat, answers: Option<string>) returns (ok: bool)
      requires Valid()
      modifies this`row, this`history, this`wakeContext
      ensures Valid() && OnlyAppends()
      ensures ok <==> old(row).errorCount < MAX_STAGE_RETRIES
      ensures row == Recovered(old(row), pendingQuestions, answers)
      ensures !ok ==> row == old(row) && wakeContext == old(wakeContext)
      ensures ok ==> row == Row(old(row).stage, old(row).plan, 0, row.pause, old(row).update)
      ensures old(row).pause == Some(Approval) ==> row.pause == Some(Approval)
      ensures ok && old(row).pause in {None, Some(Failure)} ==> row.pause == None
      ensures ok && old(row).pause == Some(OwnerAnswers) ==>
                row.pause == if pendingQuestions == 0 && answers.Some? then None else Some(OwnerAnswers)
      ensures wakeContext == if ok && old(row).pause == Some(OwnerAnswers) && row.pause.None? then answers else old(wakeContext)
    {
      if row.errorCount >= MAX_STAGE_RETRIES {
        return false;
      }
      if row.errorCount > 0 {
        Write(row.(errorCount := 0));
      }
      if row.pause == Some(Failure) {
        Write(row.(pause := None));
      }
      if row.pause == Some(OwnerAnswers) && pendingQuestions == 0 && answers.Some? {
        wakeContext := answers;
        Write(Resumed(row));
      }
      ok := true;
    }

    method Run(mode: Mode, pendingQuestions: nat, answers: Option<string>, wakeups: seq<Wakeup>)
      requires Valid()
      modifies this
      ensures Valid() && OnlyAppends()
      ensures FirstRun(old(stageLog), stageLog, RunEnters(old(row), mode, pendingQuestions, answers, wakeups),
                       world(|old(stageLog)|))
      ensures old(row).pause == Some(Approval) && wakeups == [] ==> stageLog == old(stageLog)
      ensures mode.BuildingMode? && old(row).errorCount < MAX_STAGE_RETRIES && old(row).pause in {None, Some(Failure)}
              && !old(row).stage.Monitoring? && !world(|old(stageLog)|).cancelled ==>
                |old(stageLog)| < |stageLog| && stageLog[|old(stageLog)|] == old(row).stage
    {
      if old(row).pause == Some(Approval) {
        AwaitingEntersNot(row, mode, pendingQuestions, answers);
      }
      match mode {
        case BuildingMode =>
          var ok := AutoRecover(pendingQuestions, answers);
          if ok {
            state := Building;
            RunBuildPipeline(wakeups);
          } else {
            state := InPause;
            RunPausedLoop(wakeups);
          }
        case MonitoringMode =>
          state := InMonitoring;
          RunMonitoringLoop(wakeups);
        case PausedMode =>
          state := InPause;
          RunPausedLoop(wakeups);
        case OtherMode =>
          state := Idle;
          RunPausedLoop(wakeups);
      }
      assert |stageLog| == |old(stageLog)| ==> stageLog == old(stageLog);
    }
  }

  /** One life of the process: how the site is started, what happens, and the write after which it dies. */
  datatype Life = Life(mode: Mode, pending: nat, answers: Option<string>, wakeups: seq<Wakeup>, world: nat -> Attempt, crash: nat)

  /** The row of a freshly created site. */
  const FRESH: Row := Row(Plan, None, 0, None, None)

  /**
   Any number of lives, each started from the row that was persisted when the one before it died. The
   rows persisted over all of them are one sound history: whenever the process dies, the row it leaves
   behind has the plan that its stage needs.
   */
  method Lives(lives: seq<Life>) returns (persisted: seq<Row>)
    ensures Sound(persisted) && persisted[0] == FRESH
  {
    persisted := [FRESH];
    for n := 0 to |lives|
      invariant Sound(persisted) && persisted[0] == FRESH
    {
      var life := lives[n];
      var worker := new Worker(persisted[|persisted| - 1], life.world);
      worker.Run(life.mode, life.pending, life.answers, life.wakeups);
      var written := worker.history[..if life.crash < |worker.history| then life.crash + 1 else |worker.history|];
      Chained(persisted, written);
      persisted := persisted + written[1..];
    }
  }

  lemma Chained(a: seq<Row>, b: seq<Row>)
    requires Sound(a) && Sound(b) && a[|a| - 1] == b[0]
    ensures Sound(a + b[1..])
  {
    var c := a + b[1..];
    forall i | 0 <= i < |c| - 1 ensures Succeeds(c[i], c[i + 1]) {
      if i >= |a| - 1 {
        assert c[i] == b[i - (|a| - 1)] && c[i + 1] == b[i + 1 - (|a| - 1)];
      }
    }
  }
}
