// The native CPU: a STOP/RUN/FAULT machine around a cooperative, re-entrant
// priority scheduler (struct Runtime and main, apps/plc_runtime/main.cpp:143-262).

module Runtime {
  import opened ByteImage
  import opened Cells
  import opened ProcessMemory
  import opened Schedule
  import opened Values

  // What a loaded module describes, once its ABI version is checked.
  datatype ProgramDesc = ProgramDesc(tags: seq<TagDef>, tasks: seq<TaskDef>)

  // One call of a task body through the host API.
  datatype Action =
    | ReadTagCall(id: nat)
    | WriteTagCall(id: nat, value: PlcValue)
    | FindTagCall(scope: string, name: string)
    | ReadDbCall(cell: Cell)
    | WriteDbCall(cell: Cell, value: PlcValue)
    | CheckpointCall
    | FaultCall(message: string)

  predicate Late(t: TaskState, now: Instant) {
    now >= t.started && (now - t.started) / 1000 > t.def.watchdogUs
  }

  // Late by whole microseconds: the watchdog's last one is still in time.
  lemma LateMeans(t: TaskState, now: Instant)
    ensures Late(t, now) <==> now >= t.started + (t.def.watchdogUs + 1) * 1000
  {
  }

  // No task of the stack has run past its watchdog.
  // Between two states of the memory only output bytes differ.
  ghost predicate OnlyOutputs(a: Images, b: Images) {
    b.Keys == a.Keys && forall k | k in a && k.0 != OUTPUT :: b[k] == a[k]
  }

  lemma OutputsTwice(a: Images, b: Images, c: Images)
    requires OnlyOutputs(a, b) && OnlyOutputs(b, c)
    ensures OnlyOutputs(a, c)
  {
  }

  lemma NoneChanged(a: Images)
    ensures OnlyOutputs(a, a)
  {
  }

  predicate InTime(tasks: seq<TaskState>, stack: seq<nat>, now: Instant) {
    forall k | 0 <= k < |stack| :: stack[k] < |tasks| && now < tasks[stack[k]].started + (tasks[stack[k]].def.watchdogUs + 1) * 1000
  }

  lemma StillInTime(tasks: seq<TaskState>, stack: seq<nat>, now: Instant, earlier: Instant)
    requires InTime(tasks, stack, now) && earlier <= now
    ensures InTime(tasks, stack, earlier)
  {
  }

  // Microseconds since the previous dispatch, one period on the first.
  function Elapsed(t: TaskState, now: Instant): nat {
    if t.last == NEVER || now < t.last then t.def.periodUs else (now - t.last) / 1000
  }

  // What System.CycleTime tells a body: milliseconds since its last dispatch, one period on
  // the first.
  function CycleMs(t: TaskState, now: Instant): (ms: i64)
    requires t.def.periodUs <= 60_000_000
  {
    if t.last == 0 || now < t.last then t.def.periodUs / 1000 else (now - t.last) / 1_000_000
  }

  lemma ElapsedInMs(t: TaskState, now: Instant)
    requires TaskDefOk(t.def)
    ensures t.def.periodUs <= 60_000_000 && Elapsed(t, now) < 0x8000_0000_0000_0000 && Elapsed(t, now) / 1000 == CycleMs(t, now)
  {
  }

  function Idle(tasks: seq<TaskState>): set<nat> {
    set i: nat | i < |tasks| && !tasks[i].active
  }

  lemma IdleKept(a: Cpu, b: Cpu)
    requires Progress(a, b)
    ensures Idle(a.tasks) == Idle(b.tasks)
  {
    forall i | 0 <= i < |a.tasks| ensures a.tasks[i].active == b.tasks[i].active { assert SameTask(a.tasks[i], b.tasks[i]); }
  }

  // Starting an idle task leaves fewer idle ones.
  lemma IdleShrinks(since: Cpu, c: Cpu, i: nat, now: Instant)
    requires Progress(since, c) && CanStart(c, i) && c.tasks[i].def.periodUs > 0
    ensures Idle(Begin(c, i, now).tasks) < Idle(since.tasks)
  {
    IdleKept(since, c);
    assert i in Idle(c.tasks) && i !in Idle(Begin(c, i, now).tasks);
  }

  // The checks of a loaded module and of its tasks.
  predicate ModuleOk(d: ProgramDesc) {
    |d.tags| <= 10000 && 0 < |d.tasks| <= 128
  }

  ghost predicate Loadable(d: ProgramDesc) {
    ModuleOk(d) && MemoryFits(d.tags) && TaskDefsOk(d.tasks)
  }

  // Up to 10,000 tags and 1 to 128 OBs; the rest is ProcessMemory.MemoryLimits and
  // Schedule.TaskLimits.
  lemma LoadLimits(d: ProgramDesc)
    ensures Loadable(d) <==> |d.tags| <= 10_000 && 1 <= |d.tasks| <= 128 && MemoryFits(d.tags) && TaskDefsOk(d.tasks)
  {
    hide MemoryFits, TaskDefsOk;
  }

  method CheckTasks(ts: seq<TaskDef>) returns (r: Outcome<()>)
    ensures r.Returned? <==> TaskDefsOk(ts)
  {
    var ids, mains := {}, 0;
    for i := 0 to |ts|
      invariant (forall j | 0 <= j < i :: TaskDefOk(ts[j])) && (forall j, k | 0 <= j < k < i :: ts[j].ob != ts[k].ob)
      invariant ids == set j | 0 <= j < i :: ts[j].ob
      invariant mains == 0 ==> forall j | 0 <= j < i :: ts[j].kind != MAIN
      invariant mains != 0 ==> mains == 1 && 1 in ids && exists j :: 0 <= j < i && ts[j].kind == MAIN
    {
      assert ts[i] in ts;
      if ts[i].ob in ids || !TaskDefOk(ts[i]) { return Threw("invalid OB configuration"); }
      if ts[i].kind == MAIN { mains := mains + 1; }
      ids := ids + {ts[i].ob};
    }
    if mains != 1 { return Threw("exactly one main OB1 is required"); }
    r := Returned(());
  }

  predicate StartsWith(s: string, prefix: string) { prefix <= s }

  // One line on standard input. A SET argument is a tag number and text that may or
  // may not read as a number; LOAD names a module that may or may not open.
  datatype Request = Malformed | Request(id: nat, numeric: bool, integer: i64, bits: nat)
  function RequestedValue(d: TagDef, q: Request): PlcValue
    requires q.Request?
  {
    if d.typ == REAL || d.typ == LREAL then Blank(d.typ).(bits := q.bits) else Blank(d.typ).(integer := q.integer)
  }

  // System tags are read-only, outputs are held at zero unless the CPU runs, STRINGs
  // cannot be set online, and the number must be valid for the tag.
  predicate Settable(tags: seq<TagDef>, state: CpuState, q: Request) {
    Requestable(tags, state, q) && ByteImage.Valid(RequestedValue(tags[q.id], q))
  }

  predicate Requestable(tags: seq<TagDef>, state: CpuState, q: Request) {
    && q.Request? && q.id < |tags| && q.numeric && state != FAULT
    && !("__plc_" <= tags[q.id].name) && tags[q.id].name != "System.CycleTime"
    && (tags[q.id].area == OUTPUT ==> state == RUN) && tags[q.id].typ != STRING
  }

  lemma OtherImageWritten(m: Images, m': Images, area: Area, db: nat)
    requires SameExcept(m, m', Key(area, db)) && area != OUTPUT && OutputsZero(m)
    ensures OutputsZero(m')
  {
  }

  datatype Command = LoadCmd(module_: Outcome<ProgramDesc>) | RunCmd | StopCmd | ResetCmd | StepCmd | SetCmd(request: Request)
    | StatusCmd | QuitCmd | UnknownCmd
  datatype Event = WorkerPass | Line(command: Command)

  // What can be seen of the CPU between two events; images is None without a program.
  datatype Observation = Observation(cpu: Cpu, timeOk: bool, images: Option<Images>)

  ghost predicate QuietAt(o: Observation) {
    && CpuOk(o.cpu, o.timeOk) && o.cpu.stack == [] && !o.cpu.stepping
    && (o.images.None? <==> o.cpu.state == EMPTY)
    && (o.cpu.state != RUN && o.images.Some? ==> OutputsZero(o.images.value))
  }

  // What a command line does to the CPU: each has its effect where it is accepted, and
  // none where it is not.
  ghost predicate Answered(a: Cpu, timeOk: bool, c: Command, b: Cpu) {
    match c
    case RunCmd =>
      if a.state == STOP then b.state == RUN && !b.cancel && b.error == "" && ArmedAt(a.tasks, b.tasks, b.clock) else b == a
    case StopCmd => Halted(a, b)
    case QuitCmd => Halted(a, b)
    case ResetCmd =>
      if a.state != RUN && a.state != EMPTY then b.state == STOP && b.error == "" && !b.cancel && AllFresh(b.tasks, Defs(a.tasks)) else b == a
    case StepCmd =>
      if a.state != STOP then b == a else timeOk ==> exists i :: 0 <= i < |a.tasks| && a.tasks[i].def.kind == MAIN && RanOnce(a, b, i)
    case LoadCmd(m) =>
      if a.state != RUN && m.Returned? && Loadable(m.value) then b.state == STOP && b.error == "" && !b.cancel && AllFresh(b.tasks, m.value.tasks)
      else b == a
    case _ => b == a
  }

  predicate Halted(a: Cpu, b: Cpu) {
    b.cancel && b.tasks == a.tasks && b.error == a.error && b.state == if a.state == RUN then STOP else a.state
  }

  // And a worker pass: nothing unless the CPU runs, and no fault where no body ran.
  predicate Passed(a: Cpu, timeOk: bool, b: Cpu) {
    if a.state != RUN then b == a else (b.state == RUN || b.state == FAULT) && (timeOk ==> Unprovoked(a, b))
  }

  // What an event does; and what none does: leave FAULT or change its message, except a
  // RESET or LOAD line, or start the CPU, except a RUN line.
  ghost predicate Lawful(o: Observation, e: Event, o': Observation) {
    var a, b := o.cpu, o'.cpu;
    && (match e case WorkerPass => Passed(a, o.timeOk, b) case Line(c) => Answered(a, o.timeOk, c, b))
    && (a.state == FAULT && b.state != FAULT ==> e.Line? && (e.command.ResetCmd? || e.command.LoadCmd?))
    && (a.state == FAULT && b.state == FAULT && a.error != "" ==> b.error == a.error)
    && (a.state != RUN && b.state == RUN ==> e.Line? && e.command.RunCmd?)
  }

  const CYCLE_TIME := "System.CycleTime"

  class Runtime {
    var state: CpuState
    var error: string
    var cancel: bool
    var tasks: seq<TaskState>
    var stack: seq<nat>
    var startupPending: bool
    var timeTag: int
    var memory: Memory?
    // The last reading of the steady clock.
    var clock: Instant
    // A STOP or QUIT line has arrived; its thread sets cancel without waiting.
    var stopAsked: bool
    ghost var stepping: bool
    ghost var first: seq<int>
    ghost var cycles0: seq<nat>
    ghost var missed0: seq<nat>
    ghost var trace: seq<Dispatching>

    constructor ()
      ensures Quiet() && state == EMPTY && !stopAsked
    {
      state, error, cancel, tasks, stack, startupPending, timeTag, memory := EMPTY, "", false, [], [], false, -1, null;
      clock, stopAsked := 1, false;
      stepping, first, cycles0, missed0, trace := false, [], [], [], [];
    }

    ghost function Snapshot(): Cpu
      reads this
    {
      Cpu(state, error, cancel, tasks, stack, clock, stepping, first, cycles0, missed0, trace)
    }

    predicate TimeOk()
      reads `timeTag, `memory
    {
      memory != null && 0 <= timeTag < |memory.tags| ==> memory.tags[timeTag].typ == TIME
    }

    // timeTag is the tag named System.CycleTime, if there is one.
    predicate TimeTagFound()
      requires memory != null
      reads `timeTag, `memory, memory
    {
      && (timeTag < 0 ==> forall i | 0 <= i < |memory.tags| :: memory.tags[i].name != "System.CycleTime")
      && (timeTag >= 0 ==> timeTag < |memory.tags| && memory.tags[timeTag].name == "System.CycleTime")
    }

    ghost predicate MemoryOk()
      reads `state, `timeTag, `memory, memory
    {
      && (memory == null <==> state == EMPTY)
      && -1 <= timeTag && (memory == null ==> timeTag == -1)
      && (memory != null ==> memory.Valid() && timeTag < |memory.tags|)
    }

    // Holds at every point of every run.
    ghost predicate Valid()
      reads this, memory
    {
      (MemoryOk() == true) && CpuOk(Snapshot(), TimeOk())
    }

    // Holds whenever no task is executing: outputs are zero unless the CPU runs.
    ghost predicate Quiet()
      reads this, memory
    {
      && Valid() && stack == [] && !stepping
      && (state != RUN && memory != null ==> OutputsZero(memory.images))
    }

    ghost function Observe(): Observation
      reads this, memory
    {
      Observation(Snapshot(), TimeOk(), if memory == null then None else Some(memory.images))
    }

    // What the state and its invariants are made of.
    lemma Unfold()
      ensures Snapshot() == Cpu(state, error, cancel, tasks, stack, clock, stepping, first, cycles0, missed0, trace)
      ensures Valid() <==> MemoryOk() && CpuOk(Snapshot(), TimeOk())
      ensures Quiet() <==> Valid() && stack == [] && !stepping && (state != RUN && memory != null ==> OutputsZero(memory.images))
      ensures MemoryOk() <==>
        && (memory == null <==> state == EMPTY) && -1 <= timeTag
        && (memory == null ==> timeTag == -1) && (memory != null ==> memory.Valid() && timeTag < |memory.tags|)
    {
    }

    // The value of System.CycleTime, where it is kept outside the output images.
    ghost function CycleTime(): Outcome<PlcValue>
      requires memory != null ==> memory.Valid() && timeTag < |memory.tags|
      reads `timeTag, `memory, memory
    {
      if memory == null || timeTag < 0 || memory.tags[timeTag].area == OUTPUT then Threw("") else memory.Contents()[timeTag]
    }

    lemma NoCycleTime()
      requires memory != null ==> memory.Valid() && timeTag < |memory.tags|
      ensures memory == null || timeTag < 0 || memory.tags[timeTag].area == OUTPUT ==> CycleTime() == Threw("")
    {
    }

    // ---- The clock and the asynchronous STOP ----

    method Now(ghost since: Cpu) returns (now: Instant)
      requires Valid() && Progress(since, Snapshot())
      modifies `clock
      ensures Valid() && Progress(since, Snapshot())
      ensures now == clock >= old(clock) && Snapshot() == Later(old(Snapshot()), clock, cancel)
    {
      ghost var before := Snapshot();
      now := Read();
      LaterOk(before, TimeOk(), clock, cancel);
      ProgressTransitive(since, before, Snapshot());
    }

    // Any reading that is no earlier than the last one.
    method Read() returns (now: Instant)
      modifies `clock
      ensures now == clock >= old(clock)
    {
      now := *;
      if now < clock { now := clock; }
      clock := now;
    }

    method PollStop(ghost since: Cpu)
      requires Valid() && Progress(since, Snapshot())
      modifies `cancel
      ensures Valid() && Progress(since, Snapshot()) && Snapshot() == Later(old(Snapshot()), clock, cancel)
      ensures (old(cancel) ==> cancel) && (cancel ==> old(cancel) || stopAsked)
      ensures state == FAULT ==> cancel
    {
      ghost var before := Snapshot();
      var arrived: bool := *;
      if stopAsked && arrived { cancel := true; }
      LaterOk(before, TimeOk(), clock, cancel);
      ProgressTransitive(since, before, Snapshot());
    }

    // ---- Faults ----

    method HoldOutputs()
      requires MemoryOk() && memory != null
      modifies memory`images
      ensures MemoryOk() && OutputsZero(memory.images) && CycleTime() == old(CycleTime())
      ensures OnlyOutputs(old(memory.images), memory.images)
    {
      hide OutputsZero, CpuOk;
      memory.SafeOutputs();
    }

    // Keeps the first message, cancels, and holds the outputs at zero.
    method Fault(message: string, ghost since: Cpu)
      requires Valid() && memory != null && Progress(since, Snapshot())
      modifies `error, `state, `cancel, memory
      ensures Valid() && Progress(since, Snapshot()) && Snapshot() == Faulted(old(Snapshot()), message)
      ensures OutputsZero(memory.images) && CycleTime() == old(CycleTime())
      ensures OnlyOutputs(old(memory.images), memory.images) && memory.store == old(memory.store)
    {
      hide *;
      Unfold();
      ghost var before := Snapshot();
      FaultedOk(before, message, TimeOk());
      MarkFault(message);
      HoldOutputs();
      Unfold();
      ProgressTransitive(since, before, Snapshot());
    }

    method MarkFault(message: string)
      requires MemoryOk() && memory != null
      modifies `error, `state, `cancel
      ensures MemoryOk() && Snapshot() == Faulted(old(Snapshot()), message) && CycleTime() == old(CycleTime())
    {
      hide Memory.Valid, CpuOk;
      if error == "" { error := message; }
      state, cancel := FAULT, true;
    }

    method FaultIf(failed: bool, message: string, ghost since: Cpu)
      requires Valid() && memory != null && Progress(since, Snapshot())
      modifies `error, `state, `cancel, memory
      ensures Valid() && Progress(since, Snapshot()) && CycleTime() == old(CycleTime())
      ensures Snapshot() == if failed then Faulted(old(Snapshot()), message) else old(Snapshot())
      ensures state == (if failed then FAULT else old(state)) && cancel == (failed || old(cancel)) && (state == FAULT ==> cancel)
      ensures OutputsZero(old(memory.images)) ==> OutputsZero(memory.images)
      ensures failed ==> OutputsZero(memory.images)
      ensures OnlyOutputs(old(memory.images), memory.images) && memory.store == old(memory.store)
    {
      NoneChanged(memory.images);
      if failed { Fault(message, since); }
    }

    // ---- Task bodies ----

    // What an API call leaves in the memory, and whether it fails: reads change nothing, a
    // write changes its tag or its bytes, and a failing call changes nothing.
    ghost predicate CallDone(a: Action, images: Images, store: seq<PlcValue>, r: Outcome<()>)
      requires MemoryOk() && memory != null && Ready(memory.tags, images, store)
      reads `state, `timeTag, `memory, memory
    {
      var m := memory;
      && (r.Threw? || !(a.WriteTagCall? || a.WriteDbCall?) ==> m.images == images && m.store == store)
      && match a
         case ReadTagCall(id) => r.Returned? <==> id < |m.tags| && ReadTag(m.tags, images, store, id).Returned?
         case WriteTagCall(id, v) =>
           && (r.Returned? <==> id < |m.tags| && m.tags[id].typ == v.typ && ByteImage.Valid(v))
           && (r.Returned? ==> (m.images, m.store) == WriteTag(m.tags, images, store, id, v))
         case FindTagCall(scope, name) => r.Returned? <==> (scope != "" && scope + "." + name in m.names) || name in m.names
         case ReadDbCall(cell) => r.Returned? <==> ReadCell(images, cell.(area := DB)).Returned?
         case WriteDbCall(cell, v) =>
           var w := WriteCell(images, cell.(area := DB, typ := v.typ), v);
           (r.Returned? <==> w.Returned?) && (r.Returned? ==> m.images == w.value && m.store == store)
         case FaultCall(message) => r == Threw(message)
         case CheckpointCall => r.Returned?
    }

    // A call that only concerns the memory, or reports a fault.
    method MemoryCall(a: Action) returns (r: Outcome<()>)
      requires MemoryOk() && memory != null
      modifies memory
      ensures MemoryOk() && Ready(memory.tags, old(memory.images), old(memory.store)) && CallDone(a, old(memory.images), old(memory.store), r)
    {
      r := Returned(());
      match a {
        case ReadTagCall(id) =>
          var v := memory.Read(id);
          if v.Threw? { r := Threw(v.message); }
        case WriteTagCall(id, v) => r := memory.Write(id, v);
        case FindTagCall(scope, name) =>
          var scoped := scope + (if scope != "" then "." else "") + name;
          assert scope == "" ==> scoped == name;
          if scoped !in memory.names && name !in memory.names { r := Threw("unknown native tag: " + name); }
        case ReadDbCall(cell) =>
          var v := memory.ReadAddress(cell.(area := DB));
          if v.Threw? { r := Threw(v.message); }
        case WriteDbCall(cell, v) => r := memory.WriteAddress(cell.(area := DB, typ := v.typ), v);
        case FaultCall(message) => r := Threw(message);
        case CheckpointCall =>
      }
    }

    // Everything a body can do short of a checkpoint; a failing call becomes a fault.
    method Perform(a: Action, ghost since: Cpu) returns (ghost r: Outcome<()>)
      requires Valid() && memory != null && Progress(since, Snapshot())
      modifies `error, `state, `cancel, memory
      ensures Valid() && Progress(since, Snapshot())
      ensures Snapshot() == if r.Threw? then Faulted(old(Snapshot()), r.message) else old(Snapshot())
      ensures r.Threw? ==> OutputsZero(memory.images)
      ensures r.Returned? ==> Ready(memory.tags, old(memory.images), old(memory.store)) && CallDone(a, old(memory.images), old(memory.store), r)
    {
      var done := MemoryCall(a);
      r := done;
      if done.Threw? { Fault(done.message, since); }
    }

    // The executing task's body starts: the trace records it.
    ghost method BodyStarts(since: Cpu)
      requires Valid() && memory != null && stack != []
      requires since == Snapshot().(trace := trace + [Dispatching(stack[|stack| - 1], |stack| - 1)])
      modifies `trace
      ensures Valid() && memory != null && Snapshot() == since && Progress(since, since)
    {
      hide *;
      Unfold();
      TraceIsFree(Snapshot(), TimeOk(), since.trace);
      ProgressSame(since);
      trace := since.trace;
      Unfold();
    }

    // The compiled entry of the executing task: any finite sequence of API calls,
    // ending with any result.
    method Entry(ghost since: Cpu) returns (result: int)
      requires Valid() && memory != null && stack != []
      requires since == Snapshot().(trace := trace + [Dispatching(stack[|stack| - 1], |stack| - 1)])
      modifies `error, `state, `cancel, `tasks, `stack, `clock, `trace, memory
      ensures Valid() && Progress(since, Snapshot())
      decreases Idle(since.tasks), 3
    {
      BodyStarts(since);
      var calls: nat := *;
      while calls > 0
        invariant Valid() && Progress(since, Snapshot())
        decreases calls
      {
        var a: Action := *;
        if a.CheckpointCall? { var _ := Checkpoint(since); } else { ghost var _ := Perform(a, since); }
        calls := calls - 1;
      }
      result := *;
    }

    // ---- Checkpoints ----

    // Faults if a task of the stack has run past its watchdog.
    method Watchdogs(now: Instant, ghost since: Cpu) returns (ok: bool)
      requires Valid() && memory != null && Progress(since, Snapshot())
      modifies `error, `state, `cancel, memory
      ensures Valid() && Progress(since, Snapshot()) && CycleTime() == old(CycleTime())
      ensures ok <==> InTime(tasks, stack, now)
      ensures if ok then Snapshot() == old(Snapshot()) else state == FAULT && cancel
      ensures OnlyOutputs(old(memory.images), memory.images) && memory.store == old(memory.store)
    {
      hide OnlyOutputs;
      NoneChanged(memory.images);
      for k := 0 to |stack|
        invariant Valid() && Snapshot() == old(Snapshot()) && CycleTime() == old(CycleTime())
        invariant memory.images == old(memory.images) && memory.store == old(memory.store)
        invariant forall j | 0 <= j < k :: stack[j] < |tasks| && now < tasks[stack[j]].started + (tasks[stack[j]].def.watchdogUs + 1) * 1000
      {
        assert LevelOk(tasks, stack, k);
        LateMeans(tasks[stack[k]], now);
        if Late(tasks[stack[k]], now) {
          assert !InTime(tasks, stack, now);
          Fault("watchdog exceeded", since);
          return false;
        }
      }
      ok := true;
    }

    // A checkpoint gives due higher-priority tasks their turn. It comes back with the
    // same stack, and with System.CycleTime as the preempted task left it.
    method Checkpoint(ghost since: Cpu) returns (result: int)
      requires Valid() && memory != null && stack != [] && Progress(since, Snapshot())
      modifies `error, `state, `cancel, `tasks, `stack, `clock, `trace, memory
      ensures Valid() && Progress(since, Snapshot()) && stack == old(stack)
      ensures CycleTime() == old(CycleTime())
      ensures result == 0 || (result == -1 && cancel)
      ensures result == 0 ==> ServedAbove(old(Snapshot()), Snapshot(), old(clock)) && InTime(old(tasks), old(stack), old(clock))
      ensures InTime(old(tasks), old(stack), clock) ==> Unprovoked(old(Snapshot()), Snapshot())
      ensures StartedAbove(old(Snapshot()), Snapshot())
      decreases Idle(since.tasks), 2
    {
      hide *;
      Unfold();
      ghost var begin := Snapshot();
      StackKept(since, begin);
      NothingStarted(begin, TimeOk(), begin);
      PollStop(since);
      Unfold();
      if cancel {
        UnprovokedSame(begin, Snapshot());
        ServedAlike(begin, begin, begin.clock, begin, Snapshot(), begin.clock);
        return -1;
      }
      var now := Now(since);
      Unfold();
      var inTime := Watchdogs(now, since);
      Unfold();
      ghost var polled := Snapshot();
      if !inTime {
        if InTime(tasks, stack, clock) { StillInTime(tasks, stack, clock, now); }
        ServedAlike(begin, begin, begin.clock, begin, polled, begin.clock);
        return -1;
      }
      StillInTime(tasks, stack, now, begin.clock);
      UnprovokedSame(begin, polled);
      ServeAbove(since);
      Unfold();
      ghost var served := Snapshot();
      UnprovokedTransitive(begin, polled, served);
      PollStop(since);
      Unfold();
      UnprovokedSame(served, Snapshot());
      UnprovokedTransitive(begin, served, Snapshot());
      ServedAlike(polled, served, polled.clock, begin, Snapshot(), begin.clock);
      result := if cancel then -1 else 0;
    }

    // Serves what is due above the executing task, if the CPU runs and that may be preempted.
    method ServeAbove(ghost since: Cpu)
      requires Valid() && memory != null && stack != [] && Progress(since, Snapshot())
      modifies `error, `state, `cancel, `tasks, `stack, `clock, `trace, memory
      ensures Valid() && Progress(since, Snapshot()) && stack == old(stack)
      ensures CycleTime() == old(CycleTime())
      ensures StartedAbove(old(Snapshot()), Snapshot()) && (!cancel ==> ServedAbove(old(Snapshot()), Snapshot(), old(clock)))
      ensures Unprovoked(old(Snapshot()), Snapshot()) && old(trace) <= trace
      decreases Idle(since.tasks), 2, 0
    {
      hide *;
      Unfold();
      ghost var begin := Snapshot();
      StackKept(since, begin);
      TopOk(begin, TimeOk());
      NothingStarted(begin, TimeOk(), begin);
      UnprovokedSame(begin, begin);
      var top := stack[|stack| - 1];
      if state == RUN && tasks[top].def.kind != STARTUP {
        TopServiceable(begin, TimeOk());
        IdleKept(since, begin);
        ProgressSame(begin);
        var _ := ServiceDue(tasks[top].def.priority, true, begin);
        Unfold();
        StackKept(begin, Snapshot());
        ServiceServes(begin, Snapshot(), begin.tasks[top].def.priority);
        ProgressTransitive(since, begin, Snapshot());
      }
    }

    // ---- Dispatching ----

    // Puts the elapsed time into System.CycleTime and returns what it held. This
    // fails exactly when the tag is not a TIME.
    method StampCycleTime(elapsed: nat) returns (r: Outcome<PlcValue>)
      requires MemoryOk() && memory != null && elapsed < 0x8000_0000_0000_0000
      modifies memory
      ensures MemoryOk() && (r.Returned? <==> TimeOk())
      ensures r.Threw? ==> memory.images == old(memory.images)
      ensures r.Returned? ==> r.value.typ == TIME && ByteImage.Valid(r.value) && Stored(r.value) == r.value
      ensures r.Returned? && timeTag >= 0 && memory.tags[timeTag].area != OUTPUT ==> old(CycleTime()) == Returned(r.value)
      ensures r.Returned? && timeTag >= 0 ==> memory.Contents()[timeTag] == Returned(Blank(TIME).(integer := elapsed / 1000))
      ensures r.Returned? && LayoutDisjoint(memory.tags) ==>
        forall j | 0 <= j < |memory.tags| && j != timeTag :: memory.Contents()[j] == old(memory.Contents())[j]
    {
      r := Returned(Blank(TIME));
      if timeTag < 0 { return; }
      if TimeOk() { TimeReads(memory.tags, memory.images, memory.store, timeTag); }
      r := memory.Read(timeTag);
      if r.Threw? { return; }
      var written := memory.Write(timeTag, Blank(TIME).(integer := elapsed / 1000));
      if written.Threw? { r := Threw(written.message); }
    }

    // A preempted task gets its System.CycleTime back.
    method RestoreCycleTime(previous: PlcValue)
      requires MemoryOk() && memory != null && TimeOk()
      requires previous.typ == TIME && ByteImage.Valid(previous) && Stored(previous) == previous
      modifies memory
      ensures MemoryOk()
      ensures timeTag >= 0 && stack != [] && memory.tags[timeTag].area != OUTPUT ==> CycleTime() == Returned(previous)
    {
      if timeTag >= 0 && stack != [] { var _ := memory.Write(timeTag, previous); }
    }

    // The entry has come back: task i leaves the stack.
    method Leave(i: nat, previous: PlcValue)
      requires Valid() && memory != null && TimeOk() && i < |tasks| && stack != [] && stack[|stack| - 1] == i
      requires previous.typ == TIME && ByteImage.Valid(previous) && Stored(previous) == previous
      modifies `tasks, `stack, `clock, memory
      ensures Valid() && clock >= old(clock) && Snapshot() == End(old(Snapshot()), i, clock)
      ensures timeTag >= 0 && stack != [] && memory.tags[timeTag].area != OUTPUT ==> CycleTime() == Returned(previous)
    {
      hide *;
      Unfold();
      ghost var before := Snapshot();
      Pop(i, previous);
      EndKeepsOk(before, i, clock);
      EndSets(before, i, clock);
      Unfold();
    }

    method Pop(i: nat, previous: PlcValue)
      requires MemoryOk() && memory != null && TimeOk() && i < |tasks| && stack != []
      requires previous.typ == TIME && ByteImage.Valid(previous) && Stored(previous) == previous
      modifies `tasks, `stack, `clock, memory
      ensures MemoryOk() && clock >= old(clock)
      ensures stack == old(stack)[..|old(stack)| - 1] && tasks == old(tasks)[i := Ended(old(tasks)[i], clock)]
      ensures timeTag >= 0 && stack != [] && memory.tags[timeTag].area != OUTPUT ==> CycleTime() == Returned(previous)
    {
      hide CpuOk, OutputsZero, Memory.Valid;
      stack := stack[..|stack| - 1];
      RestoreCycleTime(previous);
      var now := Read();
      tasks := tasks[i := Ended(tasks[i], now)];
    }

    // Overrun and failure are judged, and a cancelled CPU holds its outputs at zero.
    method Judge(t: TaskState, result: int, ghost since: Cpu)
      requires Valid() && memory != null && Progress(since, Snapshot())
      modifies `error, `state, `cancel, memory
      ensures Valid() && Progress(since, Snapshot()) && CycleTime() == old(CycleTime())
      ensures state == FAULT ==> OutputsZero(memory.images)
      ensures t.lastUs > t.def.watchdogUs && old(error) == "" ==> state == FAULT
      ensures result != 0 ==> cancel
      ensures t.lastUs <= t.def.watchdogUs && result == 0 ==> Snapshot() == Later(old(Snapshot()), clock, cancel)
      ensures OnlyOutputs(old(memory.images), memory.images) && memory.store == old(memory.store)
    {
      hide *;
      Unfold();
      ghost var images0, entered := memory.images, Snapshot();
      FaultThenPoll(t.lastUs > t.def.watchdogUs && error == "", t.def.name + " watchdog exceeded", since);
      Unfold();
      ghost var images1, polled := memory.images, cancel;
      FaultThenPoll(result != 0 && !cancel, t.def.name + " execution failed", since);
      Unfold();
      LaterTwice(entered, clock, polled, clock, cancel);
      ghost var images2 := memory.images;
      HoldIfCancelled();
      OutputsTwice(images0, images1, images2);
      OutputsTwice(images0, images2, memory.images);
    }

    method FaultThenPoll(failed: bool, message: string, ghost since: Cpu)
      requires Valid() && memory != null && Progress(since, Snapshot())
      modifies `error, `state, `cancel, memory
      ensures Valid() && Progress(since, Snapshot()) && CycleTime() == old(CycleTime())
      ensures !failed ==> Snapshot() == Later(old(Snapshot()), clock, cancel)
      ensures state == (if failed then FAULT else old(state)) && (old(cancel) || failed ==> cancel) && (state == FAULT ==> cancel)
      ensures OnlyOutputs(old(memory.images), memory.images) && memory.store == old(memory.store)
    {
      hide *;
      FaultIf(failed, message, since);
      PollStop(since);
    }

    method HoldIfCancelled()
      requires Valid() && memory != null
      modifies memory`images
      ensures Valid() && Snapshot() == old(Snapshot()) && CycleTime() == old(CycleTime())
      ensures (cancel ==> OutputsZero(memory.images)) && OnlyOutputs(old(memory.images), memory.images)
    {
      hide *;
      Unfold();
      NoneChanged(memory.images);
      if cancel { HoldOutputs(); }
      Unfold();
    }

    // Executes one task to its end. It throws exactly when System.CycleTime is not a
    // TIME, and then leaves task i marked active although it is on no stack.
    method Dispatch(i: nat, ghost since: Cpu) returns (r: Outcome<()>)
      requires Valid() && memory != null && Progress(since, Snapshot())
      requires i < |tasks| && (TimeOk() ==> CanStart(Snapshot(), i))
      requires state == RUN && HasReleases(tasks[i]) ==> clock >= tasks[i].next
      modifies `error, `state, `cancel, `tasks, `stack, `clock, `trace, memory
      ensures Valid() && (r.Returned? <==> TimeOk())
      ensures r.Returned? ==> Progress(since, Snapshot())
      ensures r.Returned? && state == RUN && HasReleases(tasks[i]) ==> tasks[i].next > old(clock)
      ensures r.Returned? && state == FAULT ==> OutputsZero(memory.images)
      ensures r.Returned? && old(stack) != [] ==> CycleTime() == old(CycleTime())
      ensures r.Returned? ==> RanOnce(old(Snapshot()), Snapshot(), i)
      ensures r.Returned? ==> old(trace) <= trace && Level(trace, |old(trace)|, |old(stack)|) == [i]
      ensures r.Threw? ==> i < |tasks| && tasks[i].active && tasks[i].def == old(tasks)[i].def && state == old(state) && error == old(error)
      ensures r.Threw? ==> memory.images == old(memory.images) && trace == old(trace)
      decreases Idle(since.tasks), 0
    {
      hide *;
      Unfold();
      NoCycleTime();
      ghost var before := Snapshot();
      DefsOk(before, TimeOk(), i);
      var now, previous := Enter(i);
      Unfold();
      if previous.Threw? { return Threw(previous.message); }
      Execute(i, before, now, previous.value, since);
      DispatchedMeans(before, i, now, Snapshot());
      Unfold();
      NoCycleTime();
      r := Returned(());
    }

    // The start of a dispatch: the release is accounted for, System.CycleTime is set
    // and task i goes onto the stack.
    method Enter(i: nat) returns (now: Instant, previous: Outcome<PlcValue>)
      requires Valid() && memory != null
      requires i < |tasks| && TaskDefOk(tasks[i].def) && (TimeOk() ==> CanStart(Snapshot(), i))
      requires state == RUN && HasReleases(tasks[i]) ==> clock >= tasks[i].next
      modifies `tasks, `stack, `clock, memory
      ensures Valid() && now == clock >= old(clock) && (previous.Returned? <==> TimeOk())
      ensures previous.Threw? ==> i < |tasks| && tasks[i].active && tasks[i].def == old(tasks)[i].def && memory.images == old(memory.images)
      ensures previous.Returned? ==> Snapshot() == Begin(old(Snapshot()), i, now).(trace := trace)
      ensures previous.Returned? && timeTag >= 0 ==> memory.Contents()[timeTag] == Returned(Blank(TIME).(integer := CycleMs(old(tasks)[i], now)))
      ensures previous.Returned? ==> previous.value.typ == TIME && ByteImage.Valid(previous.value) && Stored(previous.value) == previous.value
      ensures previous.Returned? && timeTag >= 0 && memory.tags[timeTag].area != OUTPUT ==> old(CycleTime()) == Returned(previous.value)
    {
      hide *;
      Unfold();
      ghost var before := Snapshot();
      now, previous := Mark(i);
      StartedIs(before.tasks[i], now);
      if previous.Threw? {
        StrandedOk(before, i, now);
        Unfold();
        return;
      }
      stack := stack + [i];
      BeginKeepsOk(before, i, now);
      BeginSets(before, i, now);
      TraceIsFree(Begin(before, i, now), true, trace);
      Unfold();
    }

    method Mark(i: nat) returns (now: Instant, previous: Outcome<PlcValue>)
      requires MemoryOk() && memory != null && i < |tasks| && TaskDefOk(tasks[i].def)
      modifies `tasks, `clock, memory
      ensures MemoryOk() && now == clock >= old(clock) && tasks == old(tasks)[i := Started(old(tasks)[i], now)]
      ensures (previous.Returned? <==> TimeOk()) && (previous.Threw? ==> memory.images == old(memory.images))
      ensures previous.Returned? ==> previous.value.typ == TIME && ByteImage.Valid(previous.value) && Stored(previous.value) == previous.value
      ensures previous.Returned? && timeTag >= 0 && memory.tags[timeTag].area != OUTPUT ==> old(CycleTime()) == Returned(previous.value)
      ensures previous.Returned? && timeTag >= 0 ==> memory.Contents()[timeTag] == Returned(Blank(TIME).(integer := CycleMs(old(tasks)[i], now)))
    {
      hide Memory.Valid, CycleTime, Stored, ByteImage.Valid;
      now := Read();
      ElapsedInMs(tasks[i], now);
      var elapsed := Elapsed(tasks[i], now);
      tasks := tasks[i := Started(tasks[i], now)];
      previous := StampCycleTime(elapsed);
    }

    // The body of a dispatch: the entry runs, task i leaves, the outcome is judged.
    method Execute(i: nat, ghost before: Cpu, now: Instant, previous: PlcValue, ghost since: Cpu)
      requires Valid() && memory != null && TimeOk()
      requires CpuOk(before, true) && CanStart(before, i) && TaskDefOk(before.tasks[i].def) && now >= before.clock
      requires Snapshot() == Begin(before, i, now).(trace := before.trace) && Progress(since, before)
      requires previous.typ == TIME && ByteImage.Valid(previous) && Stored(previous) == previous
      modifies `error, `state, `cancel, `tasks, `stack, `clock, `trace, memory
      ensures Valid() && Progress(since, Snapshot()) && Dispatched(before, i, now, Snapshot())
      ensures state == FAULT ==> OutputsZero(memory.images)
      ensures before.stack != [] && timeTag >= 0 && memory.tags[timeTag].area != OUTPUT ==> CycleTime() == Returned(previous)
      decreases Idle(since.tasks), 0, 0
    {
      hide CpuOk, Progress, OutputsZero, MemoryOk, CycleTime, Dispatched;
      ghost var begun := Begin(before, i, now);
      IdleShrinks(since, before, i, now);
      BeginSets(before, i, now);
      var result := Entry(begun);
      ghost var after := Snapshot();
      EntryIsBack(before, i, now, after);
      Leave(i, previous);
      ghost var left := Snapshot();
      ProgressSame(left);
      Judge(tasks[i], result, left);
      DispatchIsDone(since, before, i, now, after, left, Snapshot());
    }

    // ---- Serving what is due ----

    // The idle tasks that may run now and whose release time has come, in their order
    // of definition.
    method CollectDue(above: nat, cyclicOnly: bool, ghost since: Cpu) returns (due: seq<nat>)
      requires Valid() && Progress(since, Snapshot())
      modifies `clock
      ensures Valid() && Progress(since, Snapshot()) && clock >= old(clock)
      ensures tasks == old(tasks) && CycleTime() == old(CycleTime()) && DueAmong(tasks, |tasks|, due, above, cyclicOnly, old(clock))
    {
      hide CpuOk, Progress;
      due := [];
      for i := 0 to |tasks|
        invariant Valid() && Progress(since, Snapshot()) && clock >= old(clock)
        invariant CycleTime() == old(CycleTime()) && DueAmong(tasks, i, due, above, cyclicOnly, old(clock))
      {
        DueAmongOneMore(tasks, i, due, above, cyclicOnly, old(clock));
        if Eligible(tasks[i], above, cyclicOnly) {
          var now := Now(since);
          if now >= tasks[i].next { due := due + [i]; }
        }
      }
    }

    // Gives one due task its turn, unless cancelled or meanwhile released. Tells whether
    // it was started.
    method Turn(i: nat, above: nat, cyclicOnly: bool, ghost since: Cpu) returns (r: Outcome<bool>)
      requires Valid() && memory != null && Progress(since, Snapshot())
      requires Serviceable(Snapshot(), above, cyclicOnly) && i < |tasks| && Eligible(tasks[i], above, cyclicOnly)
      requires (state == RUN || state == FAULT) && (state == FAULT ==> OutputsZero(memory.images))
      modifies `error, `state, `cancel, `tasks, `stack, `clock, `trace, memory
      ensures Valid() && (r.Threw? ==> !TimeOk() && trace == old(trace))
      ensures r.Returned? ==> Progress(old(Snapshot()), Snapshot())
      ensures r.Returned? && cyclicOnly ==> CycleTime() == old(CycleTime())
      ensures r.Returned? && state == FAULT ==> OutputsZero(memory.images)
      ensures r.Returned? && !cancel ==> i < |tasks| && tasks[i].next > old(clock)
      ensures r.Returned? ==> old(trace) <= trace && Level(trace, |old(trace)|, |old(stack)|) == if r.value then [i] else []
      ensures r.Returned? ==> Unprovoked(old(Snapshot()), Snapshot())
      decreases Idle(since.tasks), 1, 0
    {
      hide CpuOk, Progress, MemoryOk, OutputsZero;
      ghost var begin := Snapshot();
      ProgressSame(begin);
      PollStop(begin);
      if cancel { return Returned(false); }
      var now := Now(begin);
      EligibleCanStart(begin, Snapshot(), i, above, cyclicOnly);
      if now < tasks[i].next { return Returned(false); }
      IdleKept(since, begin);
      var done := Dispatch(i, begin);
      if done.Threw? { return Threw(done.message); }
      StackKept(begin, Snapshot());
      FaultIsCancelled(Snapshot(), TimeOk());
      Provoked(begin, Snapshot(), |begin.stack|);
      r := Returned(true);
    }

    // Runs the due tasks, highest priority first, each only if it is still due. What it
    // starts itself, as opposed to what preempts that, is in the order of priority.
    method ServiceDue(above: nat, cyclicOnly: bool, ghost since: Cpu) returns (r: Outcome<()>)
      requires Valid() && memory != null && state == RUN && Serviceable(Snapshot(), above, cyclicOnly) && Progress(since, Snapshot())
      modifies `error, `state, `cancel, `tasks, `stack, `clock, `trace, memory
      ensures Valid() && (r.Threw? ==> !TimeOk())
      ensures r.Returned? ==> Progress(since, Snapshot())
      ensures r.Returned? && cyclicOnly ==> CycleTime() == old(CycleTime())
      ensures r.Returned? && state == FAULT ==> OutputsZero(memory.images)
      ensures old(trace) <= trace && InPriorityOrder(old(tasks), Level(trace, |old(trace)|, |old(stack)|), above, cyclicOnly)
      ensures r.Returned? && !cancel ==> AllAhead(tasks, above, cyclicOnly, old(clock))
      ensures r.Returned? && !cancel ==> EachStarted(old(Snapshot()), Snapshot(), above, cyclicOnly, old(clock))
      ensures r.Returned? ==> Unprovoked(old(Snapshot()), Snapshot())
      decreases Idle(since.tasks), 1
    {
      hide CpuOk, Progress, OutputsZero, MemoryOk, CycleTime, Ordered, Due, Served, RanInOrder;
      ghost var entered := Snapshot();
      var due := CollectDue(above, cyclicOnly, since);
      ghost var begin := Snapshot();
      SortedDue(tasks, due, above, cyclicOnly, entered.clock);
      due := Sorted(tasks, due);
      r := ServeAll(due, above, cyclicOnly, entered.clock, begin, since);
      RanInPriorityOrder(begin.tasks, Level(trace, |begin.trace|, |begin.stack|), due, above, cyclicOnly, entered.clock);
      if r.Returned? && !cancel {
        AllServed(begin, Snapshot(), due, above, cyclicOnly, entered.clock);
      }
    }

    // One turn after the other, until cancelled.
    method ServeAll(due: seq<nat>, above: nat, cyclicOnly: bool, ghost time: Instant, ghost begin: Cpu, ghost since: Cpu) returns (r: Outcome<()>)
      requires Valid() && memory != null && state == RUN && Serviceable(Snapshot(), above, cyclicOnly) && Progress(since, Snapshot())
      requires begin == Snapshot() && time <= clock && Due(tasks, due, above, cyclicOnly, time) && Ordered(tasks, due)
      modifies `error, `state, `cancel, `tasks, `stack, `clock, `trace, memory
      ensures Valid() && (r.Threw? ==> !TimeOk())
      ensures r.Returned? ==> Progress(begin, Snapshot()) && Progress(since, Snapshot())
      ensures r.Returned? && cyclicOnly ==> CycleTime() == old(CycleTime())
      ensures r.Returned? && state == FAULT ==> OutputsZero(memory.images)
      ensures begin.trace <= trace && RanInOrder(begin.tasks, Level(trace, |begin.trace|, |begin.stack|), due, |due|)
      ensures r.Returned? && !cancel ==> Served(tasks, due, |due|, time)
      ensures r.Returned? ==> Unprovoked(begin, Snapshot())
      decreases Idle(since.tasks), 1, 1
    {
      hide CpuOk, Progress, OutputsZero, Memory.Valid, CycleTime, RanInOrder, Served, Ordered, Unprovoked;
      NoneRan(begin, due, time);
      UnprovokedSame(begin, begin);
      ProgressSame(begin);
      ghost var time0 := CycleTime();
      for k := 0 to |due|
        invariant Valid() && memory != null && Progress(begin, Snapshot()) && (state == RUN || state == FAULT)
        invariant cyclicOnly ==> CycleTime() == time0
        invariant state == FAULT ==> OutputsZero(memory.images)
        invariant begin.trace <= trace && RanInOrder(begin.tasks, Level(trace, |begin.trace|, |begin.stack|), due, k)
        invariant Unprovoked(begin, Snapshot())
        invariant clock >= time && (!cancel ==> Served(tasks, due, k, time))
      {
        ghost var before := Snapshot();
        StackKept(begin, before);
        EligibleCanStart(begin, before, due[k], above, cyclicOnly);
        ProgressTransitive(since, begin, before);
        var turn := Turn(due[k], above, cyclicOnly, since);
        TurnTaken(begin, before, Snapshot(), due, k, turn.Returned? && turn.value);
        if turn.Threw? { return Threw(turn.message); }
        UnprovokedTransitive(begin, before, Snapshot());
        ProgressTransitive(begin, before, Snapshot());
        StackKept(before, Snapshot());
        if cancel { break; }
        ServedOneMore(before, Snapshot(), due, k, time);
      }
      ProgressTransitive(since, begin, Snapshot());
      r := Returned(());
    }

    // ---- The scheduler's cycle ----

    // Startup tasks first, in their order, then whatever is due.
    method RunTick(ghost since: Cpu) returns (r: Outcome<()>)
      requires Valid() && memory != null && state == RUN && stack == [] && since == Snapshot()
      modifies `error, `state, `cancel, `tasks, `stack, `clock, `trace, `startupPending, memory
      ensures Valid() && (r.Threw? ==> !TimeOk())
      ensures r.Returned? ==> Progress(since, Snapshot()) && (state == FAULT ==> OutputsZero(memory.images))
      ensures r.Returned? && !cancel ==> !startupPending && (old(startupPending) ==> StartupsRan(since.tasks, tasks, |tasks|))
      ensures r.Returned? && !cancel ==> AllAhead(tasks, 0, false, old(clock))
      ensures r.Returned? && !cancel ==> PassOrder(since.tasks, Level(trace, |since.trace|, 0), old(startupPending))
      ensures r.Returned? ==> Unprovoked(since, Snapshot())
    {
      hide *;
      Unfold();
      ProgressSame(since);
      NoLevel(since.trace);
      UnprovokedSame(since, since);
      if startupPending {
        startupPending := false;
        Unfold();
        r := RunStartups(since);
        if r.Threw? { return; }
      }
      Unfold();
      ghost var started := Snapshot();
      StackKept(since, started);
      PollStop(since);
      Unfold();
      ghost var polled := Snapshot();
      TraceGrows(since, started);
      TraceGrows(since, polled);
      UnprovokedSame(started, polled);
      UnprovokedTransitive(since, started, polled);
      if cancel { return Returned(()); }
      BottomServiceable(polled);
      ProgressSame(polled);
      r := ServiceDue(0, false, polled);
      Unfold();
      if r.Returned? {
        ProgressTransitive(since, polled, Snapshot());
        StackKept(polled, Snapshot());
        UnprovokedTransitive(since, polled, Snapshot());
        if old(startupPending) { StartupsStillRan(since.tasks, polled, Snapshot()); }
        if !cancel {
          AheadOfEarlier(tasks, 0, false, polled.clock, since.clock);
          PassTraced(since, polled, Snapshot(), old(startupPending));
        }
      }
    }

    method RunStartups(ghost since: Cpu) returns (r: Outcome<()>)
      requires Valid() && memory != null && state == RUN && stack == [] && Progress(since, Snapshot()) && since.stack == []
      modifies `error, `state, `cancel, `tasks, `stack, `clock, `trace, memory
      ensures Valid() && (r.Threw? ==> !TimeOk())
      ensures r.Returned? ==> Progress(since, Snapshot()) && clock >= old(clock)
      ensures r.Returned? ==> (state == RUN || state == FAULT) && (state == FAULT ==> OutputsZero(memory.images))
      ensures r.Returned? && !cancel ==> StartupsRan(old(tasks), tasks, |tasks|)
      ensures r.Returned? && !cancel ==> Level(trace, |old(trace)|, 0) == Startups(old(tasks), |old(tasks)|)
      ensures r.Returned? ==> Unprovoked(old(Snapshot()), Snapshot())
    {
      hide CpuOk, Progress, OutputsZero, Level, Startups, StartupsRan, MemoryOk, TimeOk, Unprovoked;
      ghost var begin := Snapshot();
      ProgressSame(begin);
      NoStartups(begin);
      UnprovokedSame(begin, begin);
      for i := 0 to |tasks|
        invariant Valid() && Progress(begin, Snapshot()) && |tasks| == |begin.tasks| && stack == []
        invariant (state == RUN || state == FAULT) && (state == FAULT ==> OutputsZero(memory.images)) && clock >= old(clock)
        invariant Unprovoked(begin, Snapshot())
        invariant !cancel ==> StartupsRan(begin.tasks, tasks, i) && Level(trace, |begin.trace|, 0) == Startups(begin.tasks, i)
      {
        ghost var before := Snapshot();
        StackKept(begin, before);
        ProgressSame(before);
        if tasks[i].def.kind == STARTUP {
          r := RunStartup(i, before);
          if r.Threw? { return; }
          StackKept(before, Snapshot());
          TraceGrows(begin, before);
          TraceGrows(before, Snapshot());
          UnprovokedTransitive(begin, before, Snapshot());
          ProgressTransitive(begin, before, Snapshot());
        }
        if !cancel {
          StartupsRanOneMore(begin, before, Snapshot(), i);
          NoLevel(before.trace);
          StartupsTraced(begin, before, Snapshot(), i);
        }
      }
      ProgressTransitive(since, begin, Snapshot());
      r := Returned(());
    }

    method RunStartup(i: nat, ghost since: Cpu) returns (r: Outcome<()>)
      requires Valid() && memory != null && stack == [] && Progress(since, Snapshot()) && i < |tasks| && tasks[i].def.kind == STARTUP
      requires (state == RUN || state == FAULT) && (state == FAULT ==> OutputsZero(memory.images))
      modifies `error, `state, `cancel, `tasks, `stack, `clock, `trace, memory
      ensures Valid() && (r.Threw? ==> !TimeOk())
      ensures r.Returned? ==> Progress(since, Snapshot()) && (state == FAULT ==> OutputsZero(memory.images)) && clock >= old(clock)
      ensures r.Returned? && !cancel ==> RanOnce(old(Snapshot()), Snapshot(), i)
      ensures r.Returned? && !cancel ==> old(trace) <= trace && Level(trace, |old(trace)|, 0) == [i]
      ensures r.Returned? ==> Unprovoked(old(Snapshot()), Snapshot())
    {
      hide CpuOk, Progress, OutputsZero;
      PollStop(since);
      if cancel { return Returned(()); }
      if TimeOk() { NoneActive(Snapshot()); }
      ghost var begin := Snapshot();
      ProgressSame(begin);
      r := Dispatch(i, begin);
      if r.Returned? {
        Provoked(begin, Snapshot(), 0);
        StackKept(begin, Snapshot());
        ProgressTransitive(since, begin, Snapshot());
      }
    }

    // One pass of the worker thread; an exception becomes a fault.
    method Tick()
      requires Quiet()
      modifies `error, `state, `cancel, `tasks, `stack, `clock, `trace, `startupPending, memory
      ensures Quiet()
      ensures old(state) != RUN ==> Snapshot() == old(Snapshot())
      ensures old(state) == RUN ==> state == RUN || state == FAULT
      ensures state == RUN && !cancel && TimeOk() ==> forall i | 0 <= i < |tasks| && tasks[i].def.kind != STARTUP :: tasks[i].next > old(clock)
      ensures state == RUN && !cancel ==> !startupPending && PassOrder(old(tasks), Level(trace, |old(trace)|, 0), old(startupPending))
      ensures state == RUN && !cancel && old(startupPending) ==> StartupsRan(old(tasks), tasks, |tasks|)
      ensures TimeOk() ==> Unprovoked(old(Snapshot()), Snapshot())
    {
      hide CpuOk, Progress, OutputsZero;
      ghost var before := Snapshot();
      ProgressSame(before);
      if state != RUN { return; }
      PollStop(before);
      if cancel { return; }
      ghost var polled := Snapshot();
      ProgressSame(polled);
      var r := RunTick(polled);
      if r.Threw? {
        StrandedStack(Snapshot());
        ghost var stranded := Snapshot();
        ProgressSame(stranded);
        Fault(r.message, stranded);
      } else {
        StackKept(polled, Snapshot());
        if TimeOk() { NoneActive(Snapshot()); }
      }
    }

    // ---- Commands ----

    // On a disjoint layout every tag holds its initial value, outputs apart.
    ghost predicate FromInitials()
      reads this, memory
    {
      && memory != null && memory.Valid()
      && (LayoutDisjoint(memory.tags) ==>
            forall i | 0 <= i < |memory.tags| && memory.tags[i].area != OUTPUT :: memory.Contents()[i] == Returned(Stored(memory.tags[i].initial)))
    }

    lemma InitialsHeld()
      requires Quiet() && memory != null
      requires LayoutDisjoint(memory.tags) ==>
        forall i | 0 <= i < |memory.tags| && memory.tags[i].area != OUTPUT :: memory.Contents()[i] == Returned(Stored(memory.tags[i].initial))
      ensures FromInitials()
    {
    }

    method Start() returns (r: Outcome<()>)
      requires Quiet()
      modifies `error, `state, `cancel, `tasks, `clock, `startupPending, `first, `cycles0, `missed0
      ensures Quiet() && (r.Returned? <==> old(state) == STOP)
      ensures r.Threw? ==> Snapshot() == old(Snapshot()) && startupPending == old(startupPending)
      ensures r.Returned? ==> state == RUN && !cancel && error == "" && startupPending && tasks == Armed(old(tasks), clock)
      ensures r.Returned? ==> ArmedAt(old(tasks), tasks, clock) && clock >= old(clock)
      ensures r.Returned? ==> first == Releases(tasks) && cycles0 == Cycles(tasks) && missed0 == Misses(tasks)
    {
      if state != STOP { return Threw("RUN requires a loaded, stopped program (RESET after a fault)"); }
      ghost var before := tasks;
      EnterRun();
      ArmedMeans(before, clock);
      r := Returned(());
    }

    method EnterRun()
      requires Valid() && memory != null && state == STOP && stack == [] && !stepping
      modifies `error, `state, `cancel, `tasks, `clock, `startupPending, `first, `cycles0, `missed0
      ensures Valid() && startupPending && clock >= old(clock) && Snapshot() == Schedule.Run(old(Snapshot()), clock)
    {
      hide *;
      Unfold();
      ghost var before := Snapshot();
      Rearm();
      RunOk(before, TimeOk(), clock);
      RunSets(before, clock);
      Unfold();
    }

    method Rearm()
      modifies `error, `state, `cancel, `tasks, `clock, `startupPending, `first, `cycles0, `missed0
      ensures state == RUN && error == "" && !cancel && startupPending && clock >= old(clock)
      ensures tasks == Armed(old(tasks), clock) && first == Releases(tasks) && cycles0 == Cycles(tasks) && missed0 == Misses(tasks)
    {
      hide *;
      cancel, error := false, "";
      var now := Read();
      ArmTasks(now);
      startupPending, state := true, RUN;
    }

    method ArmTasks(now: Instant)
      modifies `tasks, `first, `cycles0, `missed0
      ensures tasks == Armed(old(tasks), now) && first == Releases(tasks) && cycles0 == Cycles(tasks) && missed0 == Misses(tasks)
    {
      ghost var before := tasks;
      for i := 0 to |tasks|
        invariant |tasks| == |before|
        invariant forall j | 0 <= j < |tasks| :: tasks[j] == if j < i then ArmedTask(before[j], now) else before[j]
      {
        tasks := tasks[i := ArmedTask(tasks[i], now)];
      }
      assert tasks == Armed(before, now);
      first, cycles0, missed0 := Releases(tasks), Cycles(tasks), Misses(tasks);
    }

    method Stop()
      requires Quiet()
      modifies `state, memory
      ensures Quiet() && state == (if old(state) == EMPTY || old(state) == FAULT then old(state) else CpuState.STOP)
      ensures memory != null ==> OnlyOutputs(old(memory.images), memory.images) && memory.store == old(memory.store)
    {
      ghost var before := Snapshot();
      if memory != null { memory.SafeOutputs(); }
      if state != EMPTY && state != FAULT { state := STOP; }
      ModeOk(before, TimeOk(), Snapshot());
    }

    // Executes the main task once; nothing preempts it and the outputs stay zero.
    method StepOnce() returns (r: Outcome<()>)
      requires Quiet()
      modifies `error, `state, `cancel, `tasks, `stack, `clock, `trace, `stepping, memory
      ensures Quiet() && (r.Returned? <==> old(state) == STOP && TimeOk())
      ensures r.Threw? ==> state == old(state) && error == old(error)
      ensures old(state) != STOP ==> Snapshot() == old(Snapshot())
      ensures r.Threw? && old(state) == STOP ==> exists i :: 0 <= i < |tasks| && tasks[i].def.kind == MAIN && tasks[i].active
      ensures r.Returned? ==> state == STOP || state == FAULT
      ensures r.Returned? ==> exists i :: 0 <= i < |old(tasks)| && old(tasks)[i].def.kind == MAIN && RanOnce(old(Snapshot()), Snapshot(), i)
    {
      if state != STOP { return Threw("STEP requires STOP"); }
      r := StepMain();
    }

    method StepMain() returns (r: Outcome<()>)
      requires Quiet() && state == STOP
      modifies `error, `state, `cancel, `tasks, `stack, `clock, `trace, `stepping, memory
      ensures Quiet() && (r.Returned? <==> TimeOk())
      ensures r.Threw? ==> state == STOP && error == old(error)
      ensures r.Threw? ==> exists i :: 0 <= i < |tasks| && tasks[i].def.kind == MAIN && tasks[i].active
      ensures r.Returned? ==> state == STOP || state == FAULT
      ensures r.Returned? ==> exists i :: 0 <= i < |old(tasks)| && old(tasks)[i].def.kind == MAIN && RanOnce(old(Snapshot()), Snapshot(), i)
    {
      hide *;
      Unfold();
      ghost var before := Snapshot();
      BeginStep();
      Unfold();
      ghost var begin := Snapshot();
      var i := FindMain();
      if TimeOk() { StepCanStart(begin, i); }
      ProgressSame(begin);
      r := Dispatch(i, begin);
      Unfold();
      ghost var after := Snapshot();
      if r.Returned? { StackKept(begin, after); } else { StrandedStack(after); }
      FinishStep(r.Returned?);
      Unfold();
      if r.Returned? { RanOnceAlike(begin, after, before, Snapshot(), i); }
    }

    method BeginStep()
      requires Quiet() && state == STOP
      modifies `cancel, `stepping
      ensures Valid() && Snapshot() == old(Snapshot()).(cancel := false, stepping := true)
    {
      hide *;
      Unfold();
      ghost var before := Snapshot();
      cancel, stepping := false, true;
      Unfold();
      ModeOk(before, TimeOk(), Snapshot());
    }

    // The outputs go back to zero, and the CPU is quiet again.
    method FinishStep(executed: bool)
      requires Valid() && memory != null && stack == [] && (state == STOP || state == FAULT)
      requires !executed ==> OutputsZero(memory.images)
      modifies `stepping, memory`images
      ensures Quiet() && Snapshot() == old(Snapshot()).(stepping := false)
    {
      hide CpuOk, OutputsZero, Memory.Valid, CycleTime;
      if executed { memory.SafeOutputs(); }
      ghost var stepped := Snapshot();
      stepping := false;
      FaultIsCancelled(stepped, TimeOk());
      ModeOk(stepped, TimeOk(), Snapshot());
    }

    method FindMain() returns (i: nat)
      requires Valid() && state != EMPTY
      ensures i < |tasks| && tasks[i].def.kind == MAIN
    {
      i := 0;
      ghost var defs := Defs(tasks);
      ghost var t :| t in defs && t.kind == MAIN;
      ghost var k :| 0 <= k < |defs| && defs[k] == t;
      while tasks[i].def.kind != MAIN
        invariant i <= k < |tasks| && tasks[k].def.kind == MAIN
        decreases k - i
      {
        i := i + 1;
      }
    }

    // Back to the initial values. On a disjoint layout every tag outside the output
    // images then holds its own.
    method Reset() returns (r: Outcome<()>)
      requires Quiet()
      modifies `error, `state, `cancel, `tasks, `stack, memory
      ensures Quiet() && (r.Returned? <==> old(state) != RUN && old(state) != EMPTY)
      ensures r.Threw? ==> Snapshot() == old(Snapshot())
      ensures r.Returned? ==> state == STOP && error == "" && !cancel && memory != null && Defs(tasks) == Defs(old(tasks))
      ensures r.Returned? ==> stack == [] && AllFresh(tasks, Defs(old(tasks)))
      ensures r.Returned? ==> FromInitials()
    {
      if state == RUN { return Threw("STOP before RESET"); }
      if memory == null { return Threw("no program loaded"); }
      hide OutputsZero, CpuOk;
      memory.Reset();
      NewTasksFresh(Defs(tasks));
      Rewind();
      r := Returned(());
    }

    // Tasks, error and mode go back to the state after a load; outputs to zero.
    method Rewind()
      requires Valid() && memory != null && !stepping
      modifies `error, `state, `cancel, `tasks, `stack, memory`images
      ensures Valid() && OutputsZero(memory.images) && Snapshot() == Stopped(old(Snapshot()), Defs(old(tasks)))
      ensures forall i | 0 <= i < |memory.tags| && memory.tags[i].area != OUTPUT :: memory.Contents()[i] == old(memory.Contents())[i]
    {
      hide OutputsZero, CpuOk;
      ghost var before := Snapshot();
      DefsKnown(before, TimeOk());
      FreshTasks();
      Settle(before, Defs(before.tasks), TimeOk());
      memory.SafeOutputs();
    }

    method Settle(ghost before: Cpu, ghost defs: seq<TaskDef>, ghost timeOk: bool)
      requires CpuOk(before, timeOk) && !before.stepping && TaskDefsOk(defs)
      requires Snapshot() == before.(tasks := NewTasks(defs))
      modifies `error, `state, `cancel, `stack
      ensures Snapshot() == Stopped(before, defs) && CpuOk(Snapshot(), TimeOk())
    {
      error, state, cancel, stack := "", STOP, false, [];
      StoppedOk(before, timeOk, defs, TimeOk());
      assert Snapshot() == Stopped(before, defs);
    }

    method FreshTasks()
      modifies `tasks
      ensures tasks == NewTasks(Defs(old(tasks))) && Defs(tasks) == Defs(old(tasks))
    {
      ghost var before := tasks;
      for i := 0 to |tasks|
        invariant |tasks| == |before|
        invariant forall j | 0 <= j < |tasks| :: tasks[j] == if j < i then Fresh(before[j].def) else before[j]
      {
        tasks := tasks[i := Fresh(tasks[i].def)];
      }
      assert Defs(tasks) == Defs(before) && tasks == NewTasks(Defs(before));
    }

    // A program replaces the loaded one exactly when the CPU is not running and all of it
    // is acceptable.
    method Load(candidate: Outcome<ProgramDesc>) returns (r: Outcome<()>)
      requires Quiet()
      modifies `error, `state, `cancel, `tasks, `stack, `timeTag, `memory
      ensures Quiet()
      ensures r.Threw? ==> Snapshot() == old(Snapshot()) && memory == old(memory) && timeTag == old(timeTag)
      ensures r.Returned? <==> old(state) != RUN && candidate.Returned? && Loadable(candidate.value)
      ensures r.Returned? ==> state == STOP && error == "" && !cancel && memory != null && fresh(memory) && memory.tags == candidate.value.tags
      ensures r.Returned? ==> Defs(tasks) == candidate.value.tasks && AllFresh(tasks, candidate.value.tasks) && TimeTagFound()
      ensures r.Returned? ==> FromInitials()
    {
      hide Quiet, Valid, MemoryOk, CpuOk, OutputsZero, Memory.Valid, MemoryFits, TaskDefsOk, LayoutDisjoint, TimeTagFound, CycleTime;
      if state == RUN { return Threw("STOP before loading a program"); }
      if candidate.Threw? { return Threw(candidate.message); }
      if !ModuleOk(candidate.value) { return Threw("incompatible or invalid program descriptor"); }
      var built := CreateMemory(candidate.value.tags);
      if built.Threw? { return Threw(built.message); }
      r := CheckTasks(candidate.value.tasks);
      if r.Threw? { return; }
      Install(built.value, candidate.value.tasks);
      InitialsHeld();
    }

    method Install(m: Memory, defs: seq<TaskDef>)
      requires Quiet() && m.Valid() && TaskDefsOk(defs) && forall i | 0 <= i < |m.tags| :: m.tags[i].name in m.names
      modifies `error, `state, `cancel, `tasks, `stack, `timeTag, `memory, m
      ensures Quiet() && memory == m && state == STOP && error == "" && !cancel && Defs(tasks) == defs && TimeTagFound()
      ensures AllFresh(tasks, defs)
      ensures forall i | 0 <= i < |m.tags| && m.tags[i].area != OUTPUT :: m.Contents()[i] == old(m.Contents())[i]
    {
      hide CpuOk, OutputsZero;
      ghost var before, timeOk := Snapshot(), TimeOk();
      Adopt(m);
      tasks := NewTasks(defs);
      NewTasksFresh(defs);
      assert Defs(tasks) == defs;
      Settle(before, defs, timeOk);
    }

    method Adopt(m: Memory)
      requires m.Valid() && forall i | 0 <= i < |m.tags| :: m.tags[i].name in m.names
      modifies `timeTag, `memory, m
      ensures memory == m && m.Valid() && OutputsZero(m.images) && -1 <= timeTag < |m.tags| && TimeTagFound()
      ensures forall i | 0 <= i < |m.tags| && m.tags[i].area != OUTPUT :: m.Contents()[i] == old(m.Contents())[i]
    {
      memory := m;
      timeTag := if CYCLE_TIME in m.names then m.names[CYCLE_TIME] else -1;
      memory.SafeOutputs();
    }

    // Writes one tag from outside, outputs only while the CPU runs. Exactly these
    // requests succeed, and change nothing but that tag.
    method SetTag(request: Request) returns (r: Outcome<()>)
      requires Quiet()
      modifies memory
      ensures Quiet() && (r.Returned? <==> memory != null && Settable(memory.tags, state, request))
      ensures r.Returned? && LayoutDisjoint(memory.tags) ==>
        memory.Contents() == old(memory.Contents())[request.id := Returned(Stored(RequestedValue(memory.tags[request.id], request)))]
      ensures r.Threw? && memory != null ==> memory.images == old(memory.images) && memory.store == old(memory.store)
    {
      hide CpuOk, OutputsZero, Memory.Valid, CycleTime, SameExcept;
      if memory == null { return Threw("no program loaded"); }
      var v := Requested(request);
      if v.Threw? { return Threw(v.message); }
      ghost var before := memory.images;
      r := memory.Write(request.id, v.value);
      if r.Returned? && state != RUN { OtherImageWritten(before, memory.images, memory.tags[request.id].area, memory.tags[request.id].db); }
    }

    // The value a SET line asks for, where it may ask.
    method Requested(request: Request) returns (r: Outcome<PlcValue>)
      requires memory != null
      ensures r.Returned? <==> Requestable(memory.tags, state, request)
      ensures r.Returned? ==> r.value == RequestedValue(memory.tags[request.id], request)
    {
      if request.Malformed? || request.id >= |memory.tags| { return Threw("invalid write request"); }
      var d := memory.tags[request.id];
      if StartsWith(d.name, "__plc_") || d.name == CYCLE_TIME { return Threw("system tag is read-only"); }
      if state == FAULT { return Threw("RESET after fault before writing"); }
      if d.area == OUTPUT && state != RUN { return Threw("outputs are held at zero in STOP"); }
      if d.typ == STRING { return Threw("online STRING writes are not supported"); }
      if !request.numeric { return Threw("invalid numeric value"); }
      var v := Blank(d.typ);
      v := if d.typ == REAL || d.typ == LREAL then v.(bits := request.bits) else v.(integer := request.integer);
      r := Returned(v);
    }

    // One line, under the runtime's lock; an exception only becomes a reply.
    method Handle(command: Command) returns (r: Outcome<()>)
      requires Quiet()
      modifies `error, `state, `cancel, `tasks, `stack, `clock, `startupPending, `timeTag, `memory,
               `stepping, `first, `cycles0, `missed0, `trace, memory
      ensures Quiet() && stopAsked == old(stopAsked)
      ensures old(state) == FAULT && state != FAULT ==> r.Returned? && (command.ResetCmd? || command.LoadCmd?)
      ensures old(state) == FAULT && state == FAULT && old(error) != "" ==> error == old(error)
      ensures old(state) != RUN && state == RUN ==> r.Returned? && command.RunCmd?
      ensures memory != null && memory != old(memory) ==> fresh(memory)
      ensures command.LoadCmd? && r.Threw? ==> Snapshot() == old(Snapshot()) && memory == old(memory)
      ensures command.LoadCmd? && r.Threw? && memory != null ==> memory.images == old(memory.images) && memory.store == old(memory.store)
      // RUN
      ensures command.RunCmd? ==> (r.Returned? <==> old(state) == STOP)
      ensures command.RunCmd? && r.Returned? ==> state == RUN && startupPending && !cancel && error == "" && ArmedAt(old(tasks), tasks, clock)
      // STOP and QUIT
      ensures command.StopCmd? || command.QuitCmd? ==> r.Returned? && cancel && tasks == old(tasks) && error == old(error)
      ensures command.StopCmd? || command.QuitCmd? ==> state == if old(state) == RUN then STOP else old(state)
      ensures command.StopCmd? || command.QuitCmd? ==> memory == old(memory) && (memory != null ==> OnlyOutputs(old(memory.images), memory.images) && memory.store == old(memory.store))
      // RESET
      ensures command.ResetCmd? ==> (r.Returned? <==> old(state) != RUN && old(state) != EMPTY)
      ensures command.ResetCmd? && r.Returned? ==> state == STOP && error == "" && !cancel && AllFresh(tasks, Defs(old(tasks))) && FromInitials()
      // STEP
      ensures command.StepCmd? ==> (r.Returned? <==> old(state) == STOP && old(TimeOk()))
      ensures command.StepCmd? && r.Returned? ==>
        exists i :: 0 <= i < |old(tasks)| && old(tasks)[i].def.kind == MAIN && RanOnce(old(Snapshot()), Snapshot(), i)
      // SET
      ensures command.SetCmd? ==> memory == old(memory) && (r.Returned? <==> memory != null && Settable(memory.tags, state, command.request))
      ensures command.SetCmd? && r.Returned? && LayoutDisjoint(memory.tags) ==>
        memory.Contents() == old(memory.Contents())[command.request.id := Returned(Stored(RequestedValue(memory.tags[command.request.id], command.request)))]
      // LOAD
      ensures command.LoadCmd? ==> (r.Returned? <==> old(state) != RUN && command.module_.Returned? && Loadable(command.module_.value))
      ensures command.LoadCmd? && r.Returned? ==> state == STOP && error == "" && !cancel && memory != null && memory.tags == command.module_.value.tags
      ensures command.LoadCmd? && r.Returned? ==> AllFresh(tasks, command.module_.value.tasks) && FromInitials()
      // anything else, and what is refused
      ensures (command.StatusCmd? ==> r.Returned?) && (command.UnknownCmd? ==> r.Threw?)
      ensures command.StatusCmd? || command.SetCmd? || (r.Threw? && !command.StepCmd?) ==> Snapshot() == old(Snapshot())
      ensures command.StepCmd? && old(state) != STOP ==> Snapshot() == old(Snapshot())
      ensures command.StatusCmd? || command.UnknownCmd? ==> memory == old(memory) && (memory != null ==> memory.images == old(memory.images) && memory.store == old(memory.store))
    {
      hide CpuOk, OutputsZero, Loadable, Settable, Memory.Valid, LayoutDisjoint, TimeTagFound, CycleTime, MemoryOk, TimeOk, Valid, RanOnce, AllFresh, ArmedAt, OnlyOutputs, FromInitials;
      r := Returned(());
      if command.StopCmd? || command.QuitCmd? { RaiseCancel(); }
      match command {
        case LoadCmd(candidate) => r := Load(candidate);
        case RunCmd => r := Start();
        case StopCmd => Stop();
        case ResetCmd => r := Reset();
        case StepCmd => r := StepOnce();
        case SetCmd(request) => r := SetTag(request);
        case QuitCmd => Stop();
        case StatusCmd =>
        case UnknownCmd => r := Threw("unknown command");
      }
    }

    // One event. While a pass of the worker runs, a STOP or QUIT line may arrive.
    method Take(e: Event)
      requires Quiet()
      modifies this, memory
      ensures Quiet() && QuietAt(Observe()) && Lawful(old(Observe()), e, Observe())
      ensures memory != null && memory != old(memory) ==> fresh(memory)
    {
      hide CpuOk, OutputsZero, Memory.Valid, CycleTime, Loadable, AllFresh, ArmedAt, RanOnce, Unprovoked;
      match e {
        case WorkerPass =>
          stopAsked := *;
          Tick();
        case Line(command) =>
          var _ := Handle(command);
      }
    }

    method RaiseCancel()
      requires Quiet()
      modifies `cancel
      ensures Quiet() && Snapshot() == old(Snapshot()).(cancel := true)
    {
      ghost var before := Snapshot();
      cancel := true;
      LaterOk(before, TimeOk(), clock, true);
    }
  }

  // A program that may be loaded although its System.CycleTime is a BOOL.
  function StrandingProgram(): ProgramDesc {
    ProgramDesc([TagDef(CYCLE_TIME, BOOL, Blank(BOOL), LOCAL, 0, 0, -1)], [TaskDef("Main", 1, MAIN, 1000, 0, 1000)])
  }

  lemma StrandingProgramIsLoadable()
    ensures Loadable(StrandingProgram())
  {
    var d := StrandingProgram();
    var t := d.tags[0];
    assert d.tags[..0] == [] && d.tags == d.tags[..0] + [t];
    assert ImagesFor(d.tags[..0]) == map[];
    assert d.tasks[0] in d.tasks;
  }

  // One STEP of that program leaves OB1 marked active, on no stack, with the CPU in STOP.
  method StrandMainTask() returns (cpu: Runtime)
    ensures fresh(cpu) && cpu.Quiet() && cpu.state == STOP && cpu.stack == []
    ensures exists i :: 0 <= i < |cpu.tasks| && cpu.tasks[i].def.kind == MAIN && cpu.tasks[i].active
  {
    StrandingProgramIsLoadable();
    hide CpuOk, OutputsZero, Loadable;
    cpu := new Runtime();
    var loaded := cpu.Load(Returned(StrandingProgram()));
    assert cpu.memory.tags[0].name == CYCLE_TIME;
    var stepped := cpu.StepOnce();
  }

  // A CPU's whole life, from its start through any sequence of worker passes and command
  // lines, up to the first QUIT: it is seen quiet before and after every event, and no
  // event does what it must not.
  method Session(history: seq<Event>) returns (cpu: Runtime, ghost life: seq<Observation>)
    ensures fresh(cpu) && cpu.Quiet() && 0 < |life| <= |history| + 1
    ensures life[0].cpu.state == EMPTY && life[|life| - 1] == cpu.Observe()
    ensures forall k | 0 <= k < |life| :: QuietAt(life[k])
    ensures forall k | 0 <= k < |life| - 1 :: Lawful(life[k], history[k], life[k + 1])
    ensures |life| == |history| + 1 || (|life| > 1 && history[|life| - 2] == Line(QuitCmd))
  {
    hide Lawful, CpuOk, OutputsZero, Memory.Valid;
    cpu := new Runtime();
    life := [cpu.Observe()];
    var i := 0;
    while i < |history|
      invariant 0 <= i <= |history| && |life| == i + 1
      invariant fresh(cpu) && cpu.Quiet() && (cpu.memory != null ==> fresh(cpu.memory))
      invariant life[0].cpu.state == EMPTY && life[i] == cpu.Observe()
      invariant forall k | 0 <= k <= i :: QuietAt(life[k])
      invariant forall k | 0 <= k < i :: Lawful(life[k], history[k], life[k + 1])
    {
      cpu.Take(history[i]);
      life := life + [cpu.Observe()];
      if history[i] == Line(QuitCmd) { return; }
      i := i + 1;
    }
  }
}
