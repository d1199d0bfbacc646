// The scheduler's state as a value, its invariant and its steps
// (apps/plc_runtime/main.cpp:138-197).

module Schedule {
  datatype TaskKind = STARTUP | MAIN | CYCLIC
  datatype TaskDef = TaskDef(name: string, ob: nat, kind: TaskKind, periodUs: nat, priority: nat, watchdogUs: nat)

  // Times are nanoseconds of a steady clock; 0 is the epoch, read as "never".
  type Instant = t: int | 0 <= t < 0x8000_0000_0000_0000

  const NEVER: Instant := 0

  datatype TaskState = TaskState(def: TaskDef, next: int, last: Instant, started: Instant, active: bool,
                                 cycles: nat, missed: nat, overruns: nat, lastUs: nat, maxUs: nat, jitterUs: nat)

  function Fresh(def: TaskDef): TaskState {
    TaskState(def, NEVER, NEVER, NEVER, false, 0, 0, 0, 0, 0, 0)
  }

  datatype CpuState = EMPTY | STOP | RUN | FAULT

  // The start of one execution: which task, over how many others.
  datatype Dispatching = Dispatching(task: nat, depth: nat)

  // stepping is true while STEP executes; the next three fields record, per task,
  // the first release and both counters at the last RUN; trace lists every task
  // execution ever started.
  datatype Cpu = Cpu(state: CpuState, error: string, cancel: bool, tasks: seq<TaskState>, stack: seq<nat>,
                     clock: Instant, stepping: bool, first: seq<int>, cycles0: seq<nat>, missed0: seq<nat>,
                     trace: seq<Dispatching>)

  // ---- Task definitions a program may bring ----

  predicate TaskDefOk(t: TaskDef) {
    && 1000 <= t.periodUs <= 60_000_000 && 1000 <= t.watchdogUs <= 60_000_000 && t.priority <= 99
    && (t.kind == MAIN ==> t.ob == 1)
  }

  predicate TaskDefsOk(ts: seq<TaskDef>) {
    && (forall t | t in ts :: TaskDefOk(t))
    && (forall i, j | 0 <= i < j < |ts| :: ts[i].ob != ts[j].ob)
    && exists t :: t in ts && t.kind == MAIN
  }

  // In numbers: periods and watchdogs from 1 ms to 60 s, priorities up to 99, OB numbers
  // distinct, and exactly one main task, which is OB1.
  lemma TaskLimits(ts: seq<TaskDef>)
    ensures TaskDefsOk(ts) <==>
            && (forall i | 0 <= i < |ts| :: 1_000 <= ts[i].periodUs <= 60_000_000 && 1_000 <= ts[i].watchdogUs <= 60_000_000 && ts[i].priority <= 99)
            && (forall i, j | 0 <= i < j < |ts| :: ts[i].ob != ts[j].ob)
            && exists m :: 0 <= m < |ts| && ts[m].kind == MAIN && ts[m].ob == 1 && forall i | 0 <= i < |ts| && i != m :: ts[i].kind != MAIN
  {
    if TaskDefsOk(ts) {
      var t :| t in ts && t.kind == MAIN;
      var m :| 0 <= m < |ts| && ts[m] == t;
      forall i | 0 <= i < |ts| ensures TaskDefOk(ts[i]) { assert ts[i] in ts; }
    }
  }

  // ---- Release times ----

  function Span(n: nat, us: nat): nat { n * us * 1000 }

  lemma SpanAdds(n: nat, m: nat, us: nat)
    ensures Span(n + m, us) == Span(n, us) + Span(m, us)
  {
  }

  // A late task skips the periods that have passed entirely.
  function Skips(t: TaskState, now: Instant): nat
    requires t.def.periodUs > 0 && now >= t.next
  {
    (now - t.next) / 1000 / t.def.periodUs
  }

  function Release(t: TaskState, now: Instant): TaskState
    requires t.def.periodUs > 0
  {
    if now < t.next then t
    else
      var late := (now - t.next) / 1000;
      t.(jitterUs := if late > t.jitterUs then late else t.jitterUs, missed := t.missed + Skips(t, now),
         next := t.next + Span(Skips(t, now) + 1, t.def.periodUs))
  }

  // A release in time skips nothing; a late one skips every period that has passed, and its
  // lateness in microseconds counts as jitter where it is the largest so far.
  lemma ReleaseCounts(t: TaskState, now: Instant)
    requires t.def.periodUs > 0 && now >= t.next
    ensures var r, late := Release(t, now), (now - t.next) / 1000;
      && r.missed == t.missed + late / t.def.periodUs
      && r.next == t.next + (late / t.def.periodUs + 1) * t.def.periodUs * 1000
      && r.jitterUs >= t.jitterUs && r.jitterUs >= late && (r.jitterUs == t.jitterUs || r.jitterUs == late)
      && r == t.(missed := r.missed, next := r.next, jitterUs := r.jitterUs)
  {
  }

  lemma QuotientBounds(n: nat, d: nat, q: nat)
    requires d > 0 && q == n / d
    ensures q * d <= n < q * d + d
  {
  }

  // The next release lies ahead, by at most one period.
  lemma ReleaseLiesAhead(t: TaskState, now: Instant)
    requires t.def.periodUs > 0 && now >= t.next
    ensures now < Release(t, now).next <= now + Span(1, t.def.periodUs)
  {
    var us, late := t.def.periodUs, (now - t.next) / 1000;
    var skips := late / us;
    QuotientBounds(late, us, skips);
    SpanAdds(skips, 1, us);
    assert Span(skips, us) == skips * us * 1000;
  }

  // Since the last RUN: one period for every dispatch and every skipped release; and
  // right after a dispatch the next release is less than a period and a bit away.
  predicate OnSchedule(t: TaskState, first: int, cycles0: nat, missed0: nat, running: nat) {
    && cycles0 <= t.cycles && missed0 <= t.missed
    && t.next == first + Span(t.cycles - cycles0 + running + t.missed - missed0, t.def.periodUs)
    && (t.last != NEVER ==> t.started == t.last && t.last < t.next <= t.last + Span(1, t.def.periodUs))
  }

  lemma ReleaseOnSchedule(t: TaskState, now: Instant, first: int, cycles0: nat, missed0: nat)
    requires t.def.periodUs > 0 && now >= t.next && OnSchedule(t, first, cycles0, missed0, 0)
    ensures OnSchedule(Release(t.(last := now, started := now, active := true), now), first, cycles0, missed0, 1)
  {
    ReleaseLiesAhead(t, now);
    var n := t.cycles - cycles0 + t.missed - missed0;
    SpanAdds(n, Skips(t, now) + 1, t.def.periodUs);
  }

  // ---- The invariant ----

  predicate HasReleases(t: TaskState) { t.def.kind != STARTUP }

  predicate TaskOnSchedule(t: TaskState, executing: bool, first: int, cycles0: nat, missed0: nat) {
    HasReleases(t) ==> OnSchedule(t, first, cycles0, missed0, if executing then 1 else 0)
  }

  predicate SchedulesOk(c: Cpu) {
    && |c.first| == |c.cycles0| == |c.missed0| == |c.tasks|
    && forall i | 0 <= i < |c.tasks| :: TaskOnSchedule(c.tasks[i], i in c.stack, c.first[i], c.cycles0[i], c.missed0[i])
  }

  // One task may be dispatched while another is executing.
  predicate Preempts(upper: TaskDef, lower: TaskDef) {
    upper.kind == CYCLIC && lower.kind != STARTUP && upper.priority > lower.priority
  }

  predicate LevelOk(tasks: seq<TaskState>, stack: seq<nat>, k: nat)
    requires k < |stack|
  {
    && stack[k] < |tasks| && tasks[stack[k]].active
    && (k > 0 ==> stack[k - 1] < |tasks| && Preempts(tasks[stack[k]].def, tasks[stack[k - 1]].def))
  }

  // The active tasks are the stack, and each level preempts the one below. A program
  // whose System.CycleTime is no TIME never gets a task onto the stack.
  predicate NestingOk(c: Cpu, timeOk: bool) {
    && (forall k | 0 <= k < |c.stack| :: LevelOk(c.tasks, c.stack, k))
    && (timeOk ==> forall i | 0 <= i < |c.tasks| :: c.tasks[i].active ==> i in c.stack)
    && (!timeOk ==> c.stack == [])
    && (c.stepping ==> |c.stack| <= 1 && c.state != RUN)
  }

  // Compared with true, here and below, so that the verifier keeps the parts together.
  predicate CpuOk(c: Cpu, timeOk: bool) { Invariant(c, timeOk) == true }

  predicate Invariant(c: Cpu, timeOk: bool) {
    && c.clock > NEVER
    && TaskDefsOk(Defs(c.tasks)) == (c.state != EMPTY) && (c.state == EMPTY ==> c.tasks == [] && c.stack == [])
    && (c.state == FAULT ==> c.cancel) && (c.state != FAULT ==> c.error == "")
    && NestingOk(c, timeOk)
    && (c.state == RUN && timeOk ==> SchedulesOk(c))
  }

  function Defs(tasks: seq<TaskState>): (ds: seq<TaskDef>)
    ensures |ds| == |tasks| && forall i | 0 <= i < |tasks| :: ds[i] == tasks[i].def
  {
    seq(|tasks|, i requires 0 <= i < |tasks| => tasks[i].def)
  }

  // ---- What nesting means over the whole stack ----

  // Level k of the stack runs over level j.
  predicate RunsOver(c: Cpu, j: nat, k: nat)
    requires j < |c.stack| && k < |c.stack|
  {
    && c.stack[j] < |c.tasks| && c.stack[k] < |c.tasks| && c.stack[j] != c.stack[k]
    && c.tasks[c.stack[j]].def.priority < c.tasks[c.stack[k]].def.priority
    && c.tasks[c.stack[j]].def.kind != STARTUP && c.tasks[c.stack[k]].def.kind == CYCLIC
  }

  lemma {:induction false} PrioritiesRise(c: Cpu, timeOk: bool, j: nat, k: nat)
    requires NestingOk(c, timeOk) && j < k < |c.stack|
    ensures RunsOver(c, j, k)
    decreases k - j
  {
    assert LevelOk(c.tasks, c.stack, k);
    if j < k - 1 {
      PrioritiesRise(c, timeOk, j, k - 1);
    }
  }

  // At every point: the active tasks are exactly the stack, none is on it twice,
  // priorities rise from bottom to top, nothing nests over a startup task or in STEP.
  lemma NestingIsStrict(c: Cpu)
    requires CpuOk(c, true)
    ensures forall i | 0 <= i < |c.tasks| :: c.tasks[i].active <==> i in c.stack
    ensures forall j, k | 0 <= j < k < |c.stack| :: RunsOver(c, j, k)
    ensures c.stepping ==> |c.stack| <= 1
  {
    forall j, k | 0 <= j < k < |c.stack| ensures RunsOver(c, j, k) { PrioritiesRise(c, true, j, k); }
    forall i | 0 <= i < |c.tasks| ensures c.tasks[i].active <==> i in c.stack {
      if i in c.stack {
        var k :| 0 <= k < |c.stack| && c.stack[k] == i;
        assert LevelOk(c.tasks, c.stack, k);
      }
    }
  }

  // ---- Progress: what executing leaves alone ----

  predicate SameTask(a: TaskState, b: TaskState) {
    b.def == a.def && b.active == a.active && b.next >= a.next && b.cycles >= a.cycles
  }

  // How often task i has been started.
  function Runs(trace: seq<Dispatching>, i: nat): nat {
    if trace == [] then 0
    else Runs(trace[..|trace| - 1], i) + if trace[|trace| - 1].task == i then 1 else 0
  }

  // The tasks started over exactly depth others, from a position of the trace on.
  function Level(trace: seq<Dispatching>, from: nat, depth: nat): (ran: seq<nat>) {
    if |trace| <= from then []
    else Level(trace[..|trace| - 1], from, depth) + if trace[|trace| - 1].depth == depth then [trace[|trace| - 1].task] else []
  }

  lemma RunsOneMore(trace: seq<Dispatching>, d: Dispatching, i: nat)
    ensures Runs(trace + [d], i) == Runs(trace, i) + if d.task == i then 1 else 0
  {
    assert (trace + [d])[..|trace|] == trace;
  }

  lemma {:induction false} LevelSplits(before: seq<Dispatching>, after: seq<Dispatching>, from: nat, depth: nat)
    requires from <= |before| && before <= after
    ensures Level(after, from, depth) == Level(before, from, depth) + Level(after, |before|, depth)
  {
    if |before| < |after| {
      LevelSplits(before, after[..|after| - 1], from, depth);
    } else {
      assert after == before;
    }
  }

  lemma {:induction false} LevelAbove(trace: seq<Dispatching>, from: nat, depth: nat)
    requires forall k | from <= k < |trace| :: trace[k].depth > depth
    ensures Level(trace, from, depth) == []
  {
    if |trace| > from { LevelAbove(trace[..|trace| - 1], from, depth); }
  }

  // What has been started since, was started over the tasks that were executing.
  predicate Traced(a: Cpu, b: Cpu) {
    a.trace <= b.trace && forall k | |a.trace| <= k < |b.trace| :: b.trace[k].depth >= |a.stack|
  }

  // Task i has completed one cycle for each of its starts; without one it is unchanged.
  predicate Counted(a: Cpu, b: Cpu, i: nat)
    requires i < |a.tasks| && i < |b.tasks|
  {
    && b.tasks[i].cycles - a.tasks[i].cycles == Runs(b.trace, i) - Runs(a.trace, i)
    && (Runs(b.trace, i) == Runs(a.trace, i) ==> b.tasks[i] == a.tasks[i])
  }

  predicate Progress(a: Cpu, b: Cpu) { Moved(a, b) == true }

  predicate Moved(a: Cpu, b: Cpu) {
    && b.stack == a.stack && b.stepping == a.stepping && b.clock >= a.clock
    && (a.cancel ==> b.cancel)
    && (b.state == a.state || b.state == FAULT) && (b.state == FAULT && a.state != FAULT ==> b.cancel)
    && (a.error != "" ==> b.error == a.error)
    && b.first == a.first && b.cycles0 == a.cycles0 && b.missed0 == a.missed0
    && |b.tasks| == |a.tasks| && (forall i | 0 <= i < |a.tasks| :: SameTask(a.tasks[i], b.tasks[i]))
    && Traced(a, b) && (forall i | 0 <= i < |a.tasks| :: Counted(a, b, i))
    && (forall i | 0 <= i < |a.tasks| && i in a.stack :: b.tasks[i] == a.tasks[i])
    && (a.stack != [] && a.state != RUN ==> b.tasks == a.tasks)
  }

  lemma ProgressTransitive(a: Cpu, b: Cpu, c: Cpu)
    requires Progress(a, b) && Progress(b, c)
    ensures Progress(a, c)
  {
    forall i | 0 <= i < |a.tasks| ensures SameTask(a.tasks[i], c.tasks[i]) && Counted(a, c, i) {
      assert SameTask(a.tasks[i], b.tasks[i]) && SameTask(b.tasks[i], c.tasks[i]);
      assert Counted(a, b, i) && Counted(b, c, i);
    }
    forall k | |a.trace| <= k < |c.trace| ensures c.trace[k].depth >= |a.stack| {
      if k < |b.trace| { assert b.trace[k].depth >= |a.stack|; }
    }
  }

  lemma StackKept(a: Cpu, b: Cpu)
    requires Progress(a, b)
    ensures b.stack == a.stack && |b.tasks| == |a.tasks| && (b.state == a.state || b.state == FAULT)
    ensures b.clock >= a.clock && (a.cancel ==> b.cancel)
    ensures a.trace <= b.trace && forall i | 0 <= i < |a.tasks| :: SameTask(a.tasks[i], b.tasks[i])
  {
  }

  // A task whose release has moved on has been started.
  lemma ServedMeansStarted(a: Cpu, b: Cpu, i: nat)
    requires Progress(a, b) && i < |a.tasks| && b.tasks[i].next > a.tasks[i].next
    ensures Runs(b.trace, i) > Runs(a.trace, i)
  {
    assert SameTask(a.tasks[i], b.tasks[i]) && Counted(a, b, i);
  }

  // The first n of the listed tasks have been released since time.
  predicate Served(tasks: seq<TaskState>, s: seq<nat>, n: nat, time: int) {
    Indices(tasks, s) && n <= |s| && forall k | 0 <= k < n :: tasks[s[k]].next > time
  }

  lemma ServedOneMore(a: Cpu, b: Cpu, s: seq<nat>, n: nat, time: int)
    requires Progress(a, b) && Served(a.tasks, s, n, time) && n < |s|
    requires s[n] < |b.tasks| && b.tasks[s[n]].next > time
    ensures Served(b.tasks, s, n + 1, time)
  {
    forall k | 0 <= k < n ensures b.tasks[s[k]].next > time { assert SameTask(a.tasks[s[k]], b.tasks[s[k]]); }
  }

  lemma ExecutingKept(a: Cpu, b: Cpu, i: nat)
    requires Progress(a, b) && i in a.stack && i < |a.tasks|
    ensures i < |b.tasks| && b.tasks[i] == a.tasks[i]
    ensures a.state != RUN ==> b.tasks == a.tasks
  {
  }

  lemma TopOk(c: Cpu, timeOk: bool)
    requires CpuOk(c, timeOk) && c.stack != []
    ensures timeOk && c.stack[|c.stack| - 1] < |c.tasks|
  {
    assert LevelOk(c.tasks, c.stack, |c.stack| - 1);
  }

  lemma FaultIsCancelled(c: Cpu, timeOk: bool)
    requires CpuOk(c, timeOk)
    ensures c.state == FAULT ==> c.cancel
  {
  }

  // ---- Steps ----

  function Faulted(c: Cpu, message: string): Cpu {
    c.(error := if c.error == "" then message else c.error, state := FAULT, cancel := true)
  }

  lemma FaultedOk(c: Cpu, message: string, timeOk: bool)
    requires CpuOk(c, timeOk) && c.state != EMPTY
    ensures CpuOk(Faulted(c, message), timeOk) && Progress(c, Faulted(c, message))
    ensures Faulted(c, message) == c.(error := if c.error == "" then message else c.error, state := FAULT, cancel := true)
  {
  }

  lemma ProgressSame(c: Cpu)
    ensures Progress(c, c)
  {
  }

  function Later(c: Cpu, clock: Instant, cancel: bool): Cpu {
    c.(clock := clock, cancel := cancel)
  }

  lemma LaterTwice(c: Cpu, t: Instant, x: bool, u: Instant, y: bool)
    ensures Later(Later(c, t, x), u, y) == Later(c, u, y)
  {
  }

  lemma LaterOk(c: Cpu, timeOk: bool, clock: Instant, cancel: bool)
    requires CpuOk(c, timeOk) && clock >= c.clock && (c.cancel ==> cancel)
    ensures CpuOk(Later(c, clock, cancel), timeOk) && Progress(c, Later(c, clock, cancel))
  {
  }

  // What serviceDue collects, apart from the time.
  predicate Eligible(t: TaskState, above: nat, cyclicOnly: bool) {
    !t.active && t.def.kind != STARTUP && (cyclicOnly ==> t.def.kind == CYCLIC && t.def.priority > above)
  }

  // serviceDue runs at the bottom, or over a task that may be preempted.
  predicate Serviceable(c: Cpu, above: nat, cyclicOnly: bool) {
    && cyclicOnly == (c.stack != [])
    && (cyclicOnly ==>
          var top := c.stack[|c.stack| - 1];
          top < |c.tasks| && c.tasks[top].def.kind != STARTUP && above == c.tasks[top].def.priority)
  }

  lemma BottomServiceable(c: Cpu)
    requires c.stack == []
    ensures Serviceable(c, 0, false)
  {
  }

  lemma TopServiceable(c: Cpu, timeOk: bool)
    requires CpuOk(c, timeOk) && c.stack != []
    ensures c.stack[|c.stack| - 1] < |c.tasks|
    ensures var top := c.tasks[c.stack[|c.stack| - 1]].def; top.kind != STARTUP ==> Serviceable(c, top.priority, true)
  {
    TopOk(c, timeOk);
  }

  lemma EligibleCanStart(a: Cpu, b: Cpu, i: nat, above: nat, cyclicOnly: bool)
    requires Progress(a, b) && Serviceable(a, above, cyclicOnly) && i < |a.tasks| && Eligible(a.tasks[i], above, cyclicOnly)
    ensures Eligible(b.tasks[i], above, cyclicOnly) && Serviceable(b, above, cyclicOnly)
    ensures b.state == RUN ==> CanStart(b, i)
  {
    assert SameTask(a.tasks[i], b.tasks[i]);
  }

  lemma NoneActive(c: Cpu)
    requires CpuOk(c, true) && c.stack == []
    ensures forall i | 0 <= i < |c.tasks| :: !c.tasks[i].active
  {
  }

  lemma DefsKnown(c: Cpu, timeOk: bool)
    requires CpuOk(c, timeOk) && c.state != EMPTY
    ensures TaskDefsOk(Defs(c.tasks)) && c.clock > NEVER
  {
  }

  function NewTasks(defs: seq<TaskDef>): (ts: seq<TaskState>)
    ensures |ts| == |defs| && forall i | 0 <= i < |defs| :: ts[i] == Fresh(defs[i])
  {
    seq(|defs|, i requires 0 <= i < |defs| => Fresh(defs[i]))
  }

  lemma StrandedStack(c: Cpu)
    requires CpuOk(c, false)
    ensures c.stack == []
  {
  }

  // RUN: main tasks are due at once, cyclic ones after a period.
  function ArmedTask(t: TaskState, now: Instant): TaskState {
    t.(last := NEVER, next := now + if t.def.kind == CYCLIC then Span(1, t.def.periodUs) else 0)
  }

  // In numbers: nothing has run since, a cyclic task is first due after its period, any other
  // at once.
  predicate ArmedAt(old_: seq<TaskState>, new_: seq<TaskState>, now: Instant) {
    |new_| == |old_| && forall i | 0 <= i < |old_| ::
      new_[i] == old_[i].(last := 0, next := now + if old_[i].def.kind == CYCLIC then old_[i].def.periodUs * 1000 else 0)
  }

  lemma ArmedMeans(tasks: seq<TaskState>, now: Instant)
    ensures ArmedAt(tasks, Armed(tasks, now), now)
  {
  }

  // As after a load: nothing has run, and nothing has been counted.
  predicate AllFresh(tasks: seq<TaskState>, defs: seq<TaskDef>) {
    |tasks| == |defs| && forall i | 0 <= i < |tasks| ::
      var t := tasks[i];
      && t.def == defs[i] && !t.active && t.next == t.last == t.started == 0
      && t.cycles == t.missed == t.overruns == t.lastUs == t.maxUs == t.jitterUs == 0
  }

  lemma NewTasksFresh(defs: seq<TaskDef>)
    ensures AllFresh(NewTasks(defs), defs)
  {
  }

  function Armed(tasks: seq<TaskState>, now: Instant): (r: seq<TaskState>)
    ensures |r| == |tasks| && forall i | 0 <= i < |tasks| :: r[i] == ArmedTask(tasks[i], now)
  {
    seq(|tasks|, i requires 0 <= i < |tasks| => ArmedTask(tasks[i], now))
  }

  function Releases(tasks: seq<TaskState>): seq<int> {
    seq(|tasks|, i requires 0 <= i < |tasks| => tasks[i].next)
  }

  function Cycles(tasks: seq<TaskState>): seq<nat> {
    seq(|tasks|, i requires 0 <= i < |tasks| => tasks[i].cycles)
  }

  function Misses(tasks: seq<TaskState>): seq<nat> {
    seq(|tasks|, i requires 0 <= i < |tasks| => tasks[i].missed)
  }

  function Run(c: Cpu, now: Instant): Cpu {
    var ts := Armed(c.tasks, now);
    Cpu(RUN, "", false, ts, c.stack, now, c.stepping, Releases(ts), Cycles(ts), Misses(ts), c.trace)
  }

  lemma RunSets(c: Cpu, now: Instant)
    ensures var ts := Armed(c.tasks, now);
      Run(c, now) == Cpu(RUN, "", false, ts, c.stack, now, c.stepping, Releases(ts), Cycles(ts), Misses(ts), c.trace)
  {
  }

  lemma RunOk(c: Cpu, timeOk: bool, now: Instant)
    requires CpuOk(c, timeOk) && c.stack == [] && c.state == STOP && !c.stepping && now >= c.clock
    ensures CpuOk(Run(c, now), timeOk)
  {
    var d := Run(c, now);
    assert Defs(d.tasks) == Defs(c.tasks);
    forall i | 0 <= i < |d.tasks| ensures TaskOnSchedule(d.tasks[i], false, d.first[i], d.cycles0[i], d.missed0[i]) {
      assert Span(0, d.tasks[i].def.periodUs) == 0;
    }
  }

  // A program just loaded or reset.
  function Stopped(c: Cpu, defs: seq<TaskDef>): Cpu {
    c.(state := STOP, error := "", cancel := false, tasks := NewTasks(defs), stack := [])
  }

  lemma StoppedOk(c: Cpu, timeOk: bool, defs: seq<TaskDef>, timeOk': bool)
    requires CpuOk(c, timeOk) && !c.stepping && TaskDefsOk(defs)
    ensures CpuOk(Stopped(c, defs), timeOk')
  {
    assert Defs(NewTasks(defs)) == defs;
  }

  // Between commands only the mode, the cancel flag and STEP's mark change.
  lemma ModeOk(c: Cpu, timeOk: bool, d: Cpu)
    requires CpuOk(c, timeOk) && c.stack == [] && d.stack == [] && d.tasks == c.tasks && d.clock >= c.clock
    requires d.error == c.error && d.state != RUN && (d.state == EMPTY <==> c.state == EMPTY)
    requires (d.state == FAULT ==> d.cancel) && (d.state != FAULT ==> c.state != FAULT)
    ensures CpuOk(d, timeOk)
  {
  }

  // May task i start executing now?
  predicate CanStart(c: Cpu, i: nat) {
    && i < |c.tasks| && !c.tasks[i].active
    && (c.state == RUN || (c.stepping && c.stack == [] && c.state == STOP))
    && (c.stack == [] || (c.stack[|c.stack| - 1] < |c.tasks| && Preempts(c.tasks[i].def, c.tasks[c.stack[|c.stack| - 1]].def)))
  }

  lemma StepCanStart(c: Cpu, i: nat)
    requires CpuOk(c, true) && c.stack == [] && c.stepping && c.state == STOP && i < |c.tasks|
    ensures CanStart(c, i)
  {
    NoneActive(c);
  }

  function Started(t: TaskState, now: Instant): TaskState
    requires t.def.periodUs > 0
  {
    var s := t.(last := now, started := now, active := true);
    if t.def.kind != STARTUP then Release(s, now) else s
  }

  lemma StartedIs(t: TaskState, now: Instant)
    requires TaskDefOk(t.def)
    ensures t.def.periodUs > 0 && Started(t, now).active && Started(t, now).def == t.def
  {
  }

  function Begin(c: Cpu, i: nat, now: Instant): Cpu
    requires i < |c.tasks| && c.tasks[i].def.periodUs > 0
  {
    c.(clock := now, tasks := c.tasks[i := Started(c.tasks[i], now)], stack := c.stack + [i],
       trace := c.trace + [Dispatching(i, |c.stack|)])
  }

  lemma DefsOk(c: Cpu, timeOk: bool, i: nat)
    requires CpuOk(c, timeOk) && i < |c.tasks|
    ensures TaskDefOk(c.tasks[i].def) && c.state != EMPTY
  {
    assert Defs(c.tasks)[i] in Defs(c.tasks);
  }

  lemma BeginKeepsOk(c: Cpu, i: nat, now: Instant)
    requires CpuOk(c, true) && CanStart(c, i) && now >= c.clock && c.tasks[i].def.periodUs > 0
    requires c.state == RUN && HasReleases(c.tasks[i]) ==> now >= c.tasks[i].next
    ensures CpuOk(Begin(c, i, now), true)
  {
    var b := Begin(c, i, now);
    assert Defs(b.tasks) == Defs(c.tasks);
    assert i !in c.stack by { NestingIsStrict(c); }
    forall k | 0 <= k < |b.stack| ensures LevelOk(b.tasks, b.stack, k) {
      if k < |c.stack| { assert LevelOk(c.tasks, c.stack, k); }
      if k > 0 { assert b.stack[k - 1] == c.stack[k - 1] && LevelOk(c.tasks, c.stack, k - 1); }
    }
    assert forall j | j in b.stack :: j in c.stack || j == i;
    forall j | 0 <= j < |b.tasks| && b.tasks[j].active ensures j in b.stack {
      assert j == i ==> b.stack[|c.stack|] == j;
    }
    if c.state == RUN {
      forall j | 0 <= j < |b.tasks| ensures TaskOnSchedule(b.tasks[j], j in b.stack, b.first[j], b.cycles0[j], b.missed0[j]) {
        assert TaskOnSchedule(c.tasks[j], j in c.stack, c.first[j], c.cycles0[j], c.missed0[j]);
        assert j in b.stack <==> j in c.stack || j == i;
        if j == i && HasReleases(c.tasks[i]) {
          ReleaseOnSchedule(c.tasks[i], now, c.first[i], c.cycles0[i], c.missed0[i]);
          assert b.stack[|c.stack|] == i;
        }
      }
    }
  }

  // A dispatch that threw: task i is marked active but is on no stack.
  lemma StrandedOk(c: Cpu, i: nat, now: Instant)
    requires CpuOk(c, false) && i < |c.tasks| && c.tasks[i].def.periodUs > 0 && now >= c.clock
    ensures CpuOk(c.(clock := now, tasks := c.tasks[i := Started(c.tasks[i], now)]), false)
  {
    assert Defs(c.tasks[i := Started(c.tasks[i], now)]) == Defs(c.tasks);
  }

  // An entry has returned at time now.
  function Ended(t: TaskState, now: Instant): TaskState {
    var us := if now >= t.started then (now - t.started) / 1000 else 0;
    t.(active := false, lastUs := us, maxUs := if us > t.maxUs then us else t.maxUs, cycles := t.cycles + 1,
       overruns := if us > t.def.periodUs then t.overruns + 1 else t.overruns)
  }

  // The cycle is counted, its time in microseconds taken and compared with the longest so
  // far and with the period.
  lemma EndedCounts(t: TaskState, now: Instant)
    requires now >= t.started
    ensures var e, us := Ended(t, now), (now - t.started) / 1000;
      && !e.active && e.cycles == t.cycles + 1 && e.lastUs == us
      && e.overruns == t.overruns + (if us > t.def.periodUs then 1 else 0)
      && e.maxUs >= t.maxUs && e.maxUs >= us && (e.maxUs == t.maxUs || e.maxUs == us)
      && e == t.(active := false, cycles := e.cycles, lastUs := us, overruns := e.overruns, maxUs := e.maxUs)
  {
  }

  function End(c: Cpu, i: nat, now: Instant): Cpu
    requires i < |c.tasks| && c.stack != []
  {
    c.(clock := now, tasks := c.tasks[i := Ended(c.tasks[i], now)], stack := c.stack[..|c.stack| - 1])
  }

  lemma BeginSets(c: Cpu, i: nat, now: Instant)
    requires i < |c.tasks| && c.tasks[i].def.periodUs > 0
    ensures Begin(c, i, now) == c.(clock := now, tasks := c.tasks[i := Started(c.tasks[i], now)], stack := c.stack + [i],
                                   trace := c.trace + [Dispatching(i, |c.stack|)])
  {
  }

  lemma TraceIsFree(c: Cpu, timeOk: bool, trace: seq<Dispatching>)
    requires CpuOk(c, timeOk)
    ensures CpuOk(c.(trace := trace), timeOk)
  {
  }

  lemma EndSets(c: Cpu, i: nat, now: Instant)
    requires i < |c.tasks| && c.stack != []
    ensures End(c, i, now) == c.(clock := now, tasks := c.tasks[i := Ended(c.tasks[i], now)], stack := c.stack[..|c.stack| - 1])
  {
  }

  lemma EndPops(c: Cpu, i: nat, now: Instant)
    requires CpuOk(c, true) && i < |c.tasks| && c.stack != [] && c.stack[|c.stack| - 1] == i
    ensures var e := End(c, i, now);
      && i !in e.stack && (forall j :: j in c.stack <==> j in e.stack || j == i)
  {
    NestingIsStrict(c);
    var e := End(c, i, now);
    assert c.stack == e.stack + [i];
    forall k | 0 <= k < |e.stack| ensures e.stack[k] != i { assert RunsOver(c, k, |c.stack| - 1); }
  }

  lemma EndKeepsNesting(c: Cpu, i: nat, now: Instant)
    requires CpuOk(c, true) && i < |c.tasks| && c.stack != [] && c.stack[|c.stack| - 1] == i
    ensures NestingOk(End(c, i, now), true)
  {
    var e := End(c, i, now);
    EndPops(c, i, now);
    forall k | 0 <= k < |e.stack| ensures LevelOk(e.tasks, e.stack, k) {
      assert LevelOk(c.tasks, c.stack, k);
      assert e.stack[k] in e.stack;
      if k > 0 { assert LevelOk(c.tasks, c.stack, k - 1) && e.stack[k - 1] in e.stack; }
    }
  }

  lemma EndKeepsSchedules(c: Cpu, i: nat, now: Instant)
    requires CpuOk(c, true) && c.state == RUN && i < |c.tasks| && c.stack != [] && c.stack[|c.stack| - 1] == i
    ensures SchedulesOk(End(c, i, now))
  {
    var e := End(c, i, now);
    EndPops(c, i, now);
    forall j | 0 <= j < |e.tasks| ensures TaskOnSchedule(e.tasks[j], j in e.stack, e.first[j], e.cycles0[j], e.missed0[j]) {
      assert TaskOnSchedule(c.tasks[j], j in c.stack, c.first[j], c.cycles0[j], c.missed0[j]);
    }
  }

  lemma EndKeepsOk(c: Cpu, i: nat, now: Instant)
    requires CpuOk(c, true) && i < |c.tasks| && c.stack != [] && c.stack[|c.stack| - 1] == i && now >= c.clock
    ensures CpuOk(End(c, i, now), true)
  {
    assert Defs(End(c, i, now).tasks) == Defs(c.tasks);
    EndKeepsNesting(c, i, now);
    if c.state == RUN { EndKeepsSchedules(c, i, now); }
  }

  // A whole dispatch: what the body did in between is Progress.
  lemma DispatchIsProgress(c: Cpu, i: nat, now: Instant, b: Cpu, later: Instant)
    requires CpuOk(c, true) && CanStart(c, i) && now >= c.clock && c.tasks[i].def.periodUs > 0
    requires Progress(Begin(c, i, now), b) && later >= b.clock
    ensures b.stack != [] && Progress(c, End(b, i, later))
  {
    hide CpuOk, Counted, Runs, Level;
    var s, e := Begin(c, i, now), End(b, i, later);
    StackKept(s, b);
    assert e.stack == c.stack;
    ReleaseForward(c.tasks[i], now);
    forall j | 0 <= j < |c.tasks| ensures SameTask(c.tasks[j], e.tasks[j]) { assert SameTask(s.tasks[j], b.tasks[j]); }
    forall j | 0 <= j < |c.tasks| && j in c.stack ensures e.tasks[j] == c.tasks[j] { LowerTasksKept(c, i, now, b, j); }
    DispatchTraced(c, i, now, b);
    forall j | 0 <= j < |c.tasks| ensures Counted(c, e, j) { DispatchCounted(c, i, now, b, later, j); }
  }

  lemma DispatchCounted(c: Cpu, i: nat, now: Instant, b: Cpu, later: Instant, j: nat)
    requires i < |c.tasks| && c.tasks[i].def.periodUs > 0 && Progress(Begin(c, i, now), b) && j < |c.tasks|
    ensures b.stack != [] && i < |b.tasks| && Counted(c, End(b, i, later), j)
  {
    var s := Begin(c, i, now);
    StackKept(s, b);
    assert Counted(s, b, j);
    RunsOneMore(c.trace, Dispatching(i, |c.stack|), j);
    if j == i {
      assert s.stack[|c.stack|] == i;
      ExecutingKept(s, b, i);
    }
  }

  // At its own level a dispatch starts its task and nothing else.
  lemma DispatchTraced(c: Cpu, i: nat, now: Instant, b: Cpu)
    requires i < |c.tasks| && c.tasks[i].def.periodUs > 0 && Progress(Begin(c, i, now), b)
    ensures c.trace <= b.trace && (forall k | |c.trace| <= k < |b.trace| :: b.trace[k].depth >= |c.stack|)
    ensures Level(b.trace, |c.trace|, |c.stack|) == [i]
  {
    var s := Begin(c, i, now);
    LevelSplits(s.trace, b.trace, |c.trace|, |c.stack|);
    LevelAbove(b.trace, |s.trace|, |c.stack|);
    assert s.trace[..|c.trace|] == c.trace;
    assert Level(s.trace, |c.trace|, |c.stack|) == Level(c.trace, |c.trace|, |c.stack|) + [i];
  }

  lemma LowerTasksKept(c: Cpu, i: nat, now: Instant, b: Cpu, j: nat)
    requires CpuOk(c, true) && CanStart(c, i) && c.tasks[i].def.periodUs > 0 && Progress(Begin(c, i, now), b)
    requires j < |c.tasks| && j in c.stack
    ensures j != i && j < |b.tasks| && b.tasks[j] == c.tasks[j]
  {
    NestingIsStrict(c);
    ExecutingKept(Begin(c, i, now), b, j);
  }

  // Task i has completed one more cycle; unless the CPU was running no other task has changed.
  predicate RanOnce(a: Cpu, b: Cpu, i: nat) {
    && i < |a.tasks| == |b.tasks| && b.tasks[i].def == a.tasks[i].def && b.tasks[i].cycles == a.tasks[i].cycles + 1
    && (a.state != RUN ==> b.tasks == a.tasks[i := b.tasks[i]])
  }

  // Only the tasks count, and whether the CPU was running.
  lemma RanOnceAlike(a: Cpu, b: Cpu, a': Cpu, b': Cpu, i: nat)
    requires RanOnce(a, b, i) && a'.tasks == a.tasks && b'.tasks == b.tasks && (a'.state != RUN ==> a.state != RUN)
    ensures RanOnce(a', b', i)
  {
  }

  lemma DispatchRunsOnce(c: Cpu, i: nat, now: Instant, b: Cpu, later: Instant)
    requires CpuOk(c, true) && CanStart(c, i) && c.tasks[i].def.periodUs > 0 && Progress(Begin(c, i, now), b)
    ensures i < |b.tasks| && b.stack != [] && RanOnce(c, End(b, i, later), i)
  {
    var s := Begin(c, i, now);
    StackKept(s, b);
    assert s.stack[|c.stack|] == i;
    ExecutingKept(s, b, i);
  }

  // Over all of a dispatch started at now, judged at its end.
  predicate Dispatched(a: Cpu, i: nat, now: Instant, b: Cpu) {
    && RanOnce(a, b, i) && b.stack == a.stack && (b.state == RUN ==> a.state == RUN)
    && (HasReleases(a.tasks[i]) && a.tasks[i].next <= now ==> b.tasks[i].next > now)
    && a.trace <= b.trace && Level(b.trace, |a.trace|, |a.stack|) == [i]
  }

  lemma DispatchedMeans(a: Cpu, i: nat, now: Instant, b: Cpu)
    requires Dispatched(a, i, now, b)
    ensures RanOnce(a, b, i) && i < |b.tasks| && b.stack == a.stack && (b.state == RUN ==> a.state == RUN)
    ensures HasReleases(b.tasks[i]) == HasReleases(a.tasks[i])
    ensures HasReleases(b.tasks[i]) && a.tasks[i].next <= now ==> b.tasks[i].next > now
    ensures a.trace <= b.trace && Level(b.trace, |a.trace|, |a.stack|) == [i]
  {
  }

  lemma EntryIsBack(c: Cpu, i: nat, now: Instant, b: Cpu)
    requires i < |c.tasks| && c.tasks[i].def.periodUs > 0 && Progress(Begin(c, i, now), b)
    ensures b.stack == c.stack + [i] && i < |b.tasks|
  {
  }

  // The judgement touches neither the tasks nor the trace.
  lemma DispatchIsDone(since: Cpu, c: Cpu, i: nat, now: Instant, b: Cpu, left: Cpu, done: Cpu)
    requires CpuOk(c, true) && CanStart(c, i) && now >= c.clock && c.tasks[i].def.periodUs > 0
    requires Progress(since, c) && Progress(Begin(c, i, now), b)
    requires b.stack != [] && i < |b.tasks| && left.clock >= b.clock && left == End(b, i, left.clock)
    requires Progress(left, done) && done.tasks == left.tasks && done.trace == left.trace
    ensures Progress(since, done) && Dispatched(c, i, now, done)
  {
    hide CpuOk, Progress;
    DispatchIsProgress(c, i, now, b, left.clock);
    DispatchRunsOnce(c, i, now, b, left.clock);
    DispatchTraced(c, i, now, b);
    ProgressTransitive(c, left, done);
    ProgressTransitive(since, c, done);
    DispatchedLiesAhead(c, i, now, b);
    StackKept(c, done);
  }

  lemma DispatchedLiesAhead(c: Cpu, i: nat, now: Instant, b: Cpu)
    requires i < |c.tasks| && c.tasks[i].def.periodUs > 0 && Progress(Begin(c, i, now), b) && i < |b.tasks|
    ensures HasReleases(c.tasks[i]) && c.tasks[i].next <= now ==> b.tasks[i].next > now
  {
    if c.tasks[i].next <= now { ReleaseLiesAhead(c.tasks[i], now); }
    assert SameTask(Begin(c, i, now).tasks[i], b.tasks[i]);
  }

  // Each of the first n tasks that is a startup task has completed a cycle.
  predicate StartupsRan(a: seq<TaskState>, b: seq<TaskState>, n: nat) {
    n <= |a| == |b| && forall i | 0 <= i < n && a[i].def.kind == STARTUP :: b[i].cycles > a[i].cycles
  }

  lemma StartupsRanOneMore(a: Cpu, b: Cpu, c: Cpu, i: nat)
    requires Progress(a, b) && Progress(b, c) && StartupsRan(a.tasks, b.tasks, i) && i < |a.tasks|
    requires a.tasks[i].def.kind == STARTUP ==> RanOnce(b, c, i)
    ensures StartupsRan(a.tasks, c.tasks, i + 1)
  {
    forall j | 0 <= j < i + 1 && a.tasks[j].def.kind == STARTUP ensures c.tasks[j].cycles > a.tasks[j].cycles {
      assert SameTask(a.tasks[j], b.tasks[j]) && SameTask(b.tasks[j], c.tasks[j]);
    }
  }

  lemma StartupsStillRan(a: seq<TaskState>, b: Cpu, c: Cpu)
    requires Progress(b, c) && StartupsRan(a, b.tasks, |b.tasks|)
    ensures StartupsRan(a, c.tasks, |c.tasks|)
  {
    forall j | 0 <= j < |a| && a[j].def.kind == STARTUP ensures c.tasks[j].cycles > a[j].cycles {
      assert SameTask(b.tasks[j], c.tasks[j]);
    }
  }

  // The startup tasks among the first n, in their order of definition.
  function Startups(tasks: seq<TaskState>, n: nat): seq<nat>
    requires n <= |tasks|
  {
    if n == 0 then [] else Startups(tasks, n - 1) + if tasks[n - 1].def.kind == STARTUP then [n - 1] else []
  }

  lemma StartupsTraced(begin: Cpu, before: Cpu, after: Cpu, i: nat)
    requires Progress(begin, before) && before.trace <= after.trace && i < |begin.tasks| && begin.stack == []
    requires Level(before.trace, |begin.trace|, 0) == Startups(begin.tasks, i)
    requires Level(after.trace, |before.trace|, 0) == if begin.tasks[i].def.kind == STARTUP then [i] else []
    ensures Level(after.trace, |begin.trace|, 0) == Startups(begin.tasks, i + 1)
  {
    LevelSplits(before.trace, after.trace, |begin.trace|, 0);
  }

  // What a pass starts at the bottom: the startup tasks if they are still to come, then
  // due ones in the order of priority.
  predicate PassOrder(tasks: seq<TaskState>, ran: seq<nat>, startup: bool) {
    var s := if startup then Startups(tasks, |tasks|) else [];
    |s| <= |ran| && ran[..|s|] == s && InPriorityOrder(tasks, ran[|s|..], 0, false)
  }

  lemma PassTraced(since: Cpu, polled: Cpu, end: Cpu, startup: bool)
    requires Progress(since, polled) && polled.trace <= end.trace
    requires Level(polled.trace, |since.trace|, 0) == if startup then Startups(since.tasks, |since.tasks|) else []
    requires InPriorityOrder(polled.tasks, Level(end.trace, |polled.trace|, 0), 0, false)
    ensures PassOrder(since.tasks, Level(end.trace, |since.trace|, 0), startup)
  {
    var s, d := Level(polled.trace, |since.trace|, 0), Level(end.trace, |polled.trace|, 0);
    LevelSplits(polled.trace, end.trace, |since.trace|, 0);
    assert (s + d)[..|s|] == s && (s + d)[|s|..] == d;
    forall k | 0 <= k < |d| ensures d[k] < |since.tasks| && MayStart(since.tasks[d[k]], 0, false) {
      assert MayStart(polled.tasks[d[k]], 0, false) && SameTask(since.tasks[d[k]], polled.tasks[d[k]]);
    }
    forall j, k | 0 <= j < k < |d| ensures UrgentFirst(since.tasks, d[j], d[k]) {
      assert UrgentFirst(polled.tasks, d[j], d[k]);
      assert SameTask(since.tasks[d[j]], polled.tasks[d[j]]) && SameTask(since.tasks[d[k]], polled.tasks[d[k]]);
    }
  }

  lemma NoStartups(c: Cpu)
    ensures Level(c.trace, |c.trace|, 0) == Startups(c.tasks, 0)
    ensures StartupsRan(c.tasks, c.tasks, 0)
  {
  }

  lemma NoLevel(trace: seq<Dispatching>)
    ensures Level(trace, |trace|, 0) == []
  {
  }

  predicate SpansForward(t: TaskState, now: Instant)
    requires t.def.periodUs > 0
  {
    Started(t, now).next >= t.next
  }

  lemma ReleaseForward(t: TaskState, now: Instant)
    requires t.def.periodUs > 0
    ensures SpansForward(t, now)
  {
    var s := t.(last := now, started := now, active := true);
    if now >= t.next { assert Span(Skips(s, now) + 1, t.def.periodUs) >= 0; }
  }

  // ---- The order in which due tasks run ----

  // Higher priority first; among equals the order of definition.
  predicate Before(tasks: seq<TaskState>, i: nat, j: nat)
    requires i < |tasks| && j < |tasks|
  {
    tasks[i].def.priority > tasks[j].def.priority || (tasks[i].def.priority == tasks[j].def.priority && i < j)
  }

  predicate Indices(tasks: seq<TaskState>, s: seq<nat>) {
    forall k | 0 <= k < |s| :: s[k] < |tasks|
  }

  predicate Ordered(tasks: seq<TaskState>, s: seq<nat>)
    requires Indices(tasks, s)
  {
    forall a, b | 0 <= a < b < |s| :: Before(tasks, s[a], s[b])
  }

  function Insert(tasks: seq<TaskState>, i: nat, s: seq<nat>): (r: seq<nat>)
    requires i < |tasks| && Indices(tasks, s)
    ensures Indices(tasks, r) && forall x :: x in r <==> x == i || x in s
  {
    if s == [] || Before(tasks, i, s[0]) then [i] + s else [s[0]] + Insert(tasks, i, s[1..])
  }

  // std::stable_sort by descending priority.
  function Sorted(tasks: seq<TaskState>, due: seq<nat>): (r: seq<nat>)
    requires Indices(tasks, due)
    ensures Indices(tasks, r) && forall x :: x in r <==> x in due
  {
    if due == [] then [] else Insert(tasks, due[0], Sorted(tasks, due[1..]))
  }

  lemma {:induction false} InsertOrdered(tasks: seq<TaskState>, i: nat, s: seq<nat>)
    requires i < |tasks| && Indices(tasks, s) && Ordered(tasks, s) && i !in s
    ensures Ordered(tasks, Insert(tasks, i, s))
  {
    if s != [] && !Before(tasks, i, s[0]) {
      assert s[0] != i;
      var rest := Insert(tasks, i, s[1..]);
      InsertOrdered(tasks, i, s[1..]);
      forall x | x in rest ensures Before(tasks, s[0], x) {
        if x != i { var b :| 1 <= b < |s| && s[b] == x; }
      }
    }
  }

  lemma {:induction false} SortedOrdered(tasks: seq<TaskState>, due: seq<nat>)
    requires Indices(tasks, due) && forall a, b | 0 <= a < b < |due| :: due[a] != due[b]
    ensures Ordered(tasks, Sorted(tasks, due))
  {
    if due != [] {
      SortedOrdered(tasks, due[1..]);
      InsertOrdered(tasks, due[0], Sorted(tasks, due[1..]));
    }
  }

  predicate EachEligible(tasks: seq<TaskState>, s: seq<nat>, above: nat, cyclicOnly: bool) {
    Indices(tasks, s) && forall k | 0 <= k < |s| :: Eligible(tasks[s[k]], above, cyclicOnly)
  }

  // What serviceDue has collected: every eligible task whose release time came by then.
  predicate Due(tasks: seq<TaskState>, due: seq<nat>, above: nat, cyclicOnly: bool, time: int) {
    && EachEligible(tasks, due, above, cyclicOnly)
    && forall i | 0 <= i < |tasks| && Eligible(tasks[i], above, cyclicOnly) && tasks[i].next <= time :: i in due
  }

  // The same for the first n tasks, listed in their order of definition.
  predicate DueAmong(tasks: seq<TaskState>, n: nat, due: seq<nat>, above: nat, cyclicOnly: bool, time: int) {
    && n <= |tasks| && EachEligible(tasks, due, above, cyclicOnly)
    && (forall k | 0 <= k < |due| :: due[k] < n)
    && (forall j, k | 0 <= j < k < |due| :: due[j] < due[k])
    && forall i | 0 <= i < n && Eligible(tasks[i], above, cyclicOnly) && tasks[i].next <= time :: i in due
  }

  lemma DueAmongOneMore(tasks: seq<TaskState>, n: nat, due: seq<nat>, above: nat, cyclicOnly: bool, time: int)
    requires DueAmong(tasks, n, due, above, cyclicOnly, time) && n < |tasks|
    ensures Eligible(tasks[n], above, cyclicOnly) ==> DueAmong(tasks, n + 1, due + [n], above, cyclicOnly, time)
    ensures !Eligible(tasks[n], above, cyclicOnly) || tasks[n].next > time ==> DueAmong(tasks, n + 1, due, above, cyclicOnly, time)
  {
    assert forall i | i in due :: i in due + [n];
    assert n in due + [n];
  }

  lemma SortedDue(tasks: seq<TaskState>, due: seq<nat>, above: nat, cyclicOnly: bool, time: int)
    requires DueAmong(tasks, |tasks|, due, above, cyclicOnly, time)
    ensures Due(tasks, Sorted(tasks, due), above, cyclicOnly, time) && Ordered(tasks, Sorted(tasks, due))
  {
    var s := Sorted(tasks, due);
    SortedOrdered(tasks, due);
    forall k | 0 <= k < |s| ensures Eligible(tasks[s[k]], above, cyclicOnly) { assert s[k] in due; }
  }

  // ran is what ran of the first k due tasks.
  // Where no body has been started, nothing has faulted.
  predicate Unprovoked(a: Cpu, b: Cpu) {
    b.trace == a.trace ==> b.state == a.state && b.error == a.error
  }

  lemma UnprovokedTransitive(a: Cpu, b: Cpu, c: Cpu)
    requires a.trace <= b.trace <= c.trace && Unprovoked(a, b) && Unprovoked(b, c)
    ensures Unprovoked(a, c)
  {
  }

  lemma UnprovokedSame(a: Cpu, b: Cpu)
    requires b.state == a.state && b.error == a.error
    ensures Unprovoked(a, b)
  {
  }

  lemma Provoked(a: Cpu, b: Cpu, level: nat)
    requires a.trace <= b.trace && Level(b.trace, |a.trace|, level) != []
    ensures Unprovoked(a, b)
  {
  }

  lemma TraceGrows(a: Cpu, b: Cpu)
    requires Progress(a, b)
    ensures a.trace <= b.trace
  {
  }

  predicate RanInOrder(tasks: seq<TaskState>, ran: seq<nat>, due: seq<nat>, k: nat) {
    && Indices(tasks, due) && Ordered(tasks, due) && Indices(tasks, ran) && Ordered(tasks, ran)
    && (forall a | 0 <= a < |ran| :: ran[a] in due)
    && forall a, b | 0 <= a < |ran| && k <= b < |due| :: Before(tasks, ran[a], due[b])
  }

  lemma RanOneMore(tasks: seq<TaskState>, ran: seq<nat>, due: seq<nat>, k: nat)
    requires RanInOrder(tasks, ran, due, k) && k < |due|
    ensures RanInOrder(tasks, ran, due, k + 1) && RanInOrder(tasks, ran + [due[k]], due, k + 1)
  {
  }

  lemma NoneRan(c: Cpu, due: seq<nat>, time: int)
    requires Indices(c.tasks, due) && Ordered(c.tasks, due)
    ensures RanInOrder(c.tasks, Level(c.trace, |c.trace|, |c.stack|), due, 0) && Served(c.tasks, due, 0, time)
  {
  }

  // The k-th due task has had its turn, and was started or not.
  lemma TurnTaken(begin: Cpu, before: Cpu, after: Cpu, due: seq<nat>, k: nat, started: bool)
    requires begin.trace <= before.trace <= after.trace && k < |due|
    requires RanInOrder(begin.tasks, Level(before.trace, |begin.trace|, |begin.stack|), due, k)
    requires Level(after.trace, |before.trace|, |begin.stack|) == if started then [due[k]] else []
    ensures RanInOrder(begin.tasks, Level(after.trace, |begin.trace|, |begin.stack|), due, k + 1)
    ensures RanInOrder(begin.tasks, Level(after.trace, |begin.trace|, |begin.stack|), due, |due|)
  {
    var ran := Level(before.trace, |begin.trace|, |begin.stack|);
    LevelSplits(before.trace, after.trace, |begin.trace|, |begin.stack|);
    RanOneMore(begin.tasks, ran, due, k);
    assert ran + [] == ran;
  }

  // An idle task that may be started: at the bottom any but a startup task, over an
  // executing one only a cyclic task of higher priority.
  predicate MayStart(t: TaskState, above: nat, over: bool) {
    !t.active && if over then t.def.kind == CYCLIC && t.def.priority > above else t.def.kind == MAIN || t.def.kind == CYCLIC
  }

  // What a checkpoint at time has done: over the executing task, unless that is a startup
  // task, each idle cyclic task of higher priority that was due has been started, and is
  // not due any more.
  predicate ServedAbove(a: Cpu, b: Cpu, time: int) {
    a.stack != [] && a.stack[|a.stack| - 1] < |a.tasks| == |b.tasks| &&
    var top := a.tasks[a.stack[|a.stack| - 1]].def;
    a.state == RUN && top.kind != STARTUP ==> AllAhead(b.tasks, top.priority, true, time) && EachStarted(a, b, top.priority, true, time)
  }

  // What it has started itself, one level up: such tasks only, the most urgent first,
  // equals in their order of definition; nothing over a startup task or outside RUN.
  predicate StartedAbove(a: Cpu, b: Cpu) {
    a.stack != [] && a.stack[|a.stack| - 1] < |a.tasks| && a.trace <= b.trace &&
    var top, ran := a.tasks[a.stack[|a.stack| - 1]].def, Level(b.trace, |a.trace|, |a.stack|);
    && (a.state != RUN || top.kind == STARTUP ==> b.trace == a.trace)
    && InPriorityOrder(a.tasks, ran, top.priority, true)
  }

  predicate UrgentFirst(tasks: seq<TaskState>, i: nat, j: nat) {
    i < |tasks| && j < |tasks| &&
    (tasks[i].def.priority > tasks[j].def.priority || (tasks[i].def.priority == tasks[j].def.priority && i < j))
  }

  // The clock and the cancel flag do not matter to it, and an earlier time asks for less.
  lemma ServedAlike(a: Cpu, b: Cpu, time: int, a': Cpu, b': Cpu, time': int)
    requires a'.tasks == a.tasks && a'.stack == a.stack && a'.trace == a.trace && a'.state == a.state
    requires b'.tasks == b.tasks && b'.trace == b.trace && time' <= time
    ensures ServedAbove(a, b, time) ==> ServedAbove(a', b', time')
    ensures StartedAbove(a, b) ==> StartedAbove(a', b')
  {
  }

  lemma NothingStarted(c: Cpu, timeOk: bool, b: Cpu)
    requires CpuOk(c, timeOk) && c.stack != [] && b.trace == c.trace && b.tasks == c.tasks
    ensures StartedAbove(c, b)
    ensures c.stack[|c.stack| - 1] < |c.tasks|
    ensures c.state != RUN || c.tasks[c.stack[|c.stack| - 1]].def.kind == STARTUP ==> ServedAbove(c, b, c.clock)
  {
    TopOk(c, timeOk);
  }

  // Only such tasks, the more urgent ones first, equals in their order of definition.
  predicate InPriorityOrder(tasks: seq<TaskState>, ran: seq<nat>, above: nat, over: bool) {
    && (forall k | 0 <= k < |ran| :: ran[k] < |tasks| && MayStart(tasks[ran[k]], above, over))
    && forall j, k | 0 <= j < k < |ran| :: UrgentFirst(tasks, ran[j], ran[k])
  }

  lemma RanInPriorityOrder(tasks: seq<TaskState>, ran: seq<nat>, due: seq<nat>, above: nat, cyclicOnly: bool, time: int)
    requires Due(tasks, due, above, cyclicOnly, time) && RanInOrder(tasks, ran, due, |due|)
    ensures InPriorityOrder(tasks, ran, above, cyclicOnly)
  {
    forall a | 0 <= a < |ran| ensures ran[a] < |tasks| && MayStart(tasks[ran[a]], above, cyclicOnly) {
      assert ran[a] in due;
      MayStartIsEligible(tasks[ran[a]], above, cyclicOnly);
    }
    forall j, k | 0 <= j < k < |ran| ensures UrgentFirst(tasks, ran[j], ran[k]) { assert Before(tasks, ran[j], ran[k]); }
  }

  lemma MayStartIsEligible(t: TaskState, above: nat, cyclicOnly: bool)
    ensures MayStart(t, above, cyclicOnly) <==> Eligible(t, above, cyclicOnly)
  {
  }

  // Every such task that was due by then has been started.
  predicate EachStarted(a: Cpu, b: Cpu, above: nat, over: bool, time: int) {
    forall i | 0 <= i < |a.tasks| && MayStart(a.tasks[i], above, over) && a.tasks[i].next <= time ::
      Runs(b.trace, i) > Runs(a.trace, i)
  }

  // None of them is due any more.
  predicate AllAhead(tasks: seq<TaskState>, above: nat, over: bool, time: int) {
    forall i | 0 <= i < |tasks| && MayStart(tasks[i], above, over) :: tasks[i].next > time
  }

  lemma AheadOfEarlier(tasks: seq<TaskState>, above: nat, over: bool, time: int, earlier: int)
    requires AllAhead(tasks, above, over, time) && earlier <= time
    ensures AllAhead(tasks, above, over, earlier)
  {
  }

  // Once every due task had its turn, nothing eligible was due at that time any more,
  // and each of them has been started.
  lemma AllServed(a: Cpu, b: Cpu, due: seq<nat>, above: nat, cyclicOnly: bool, time: int)
    requires Progress(a, b) && Due(a.tasks, due, above, cyclicOnly, time) && Served(b.tasks, due, |due|, time)
    ensures AllAhead(b.tasks, above, cyclicOnly, time)
    ensures EachStarted(a, b, above, cyclicOnly, time)
  {
    forall i | 0 <= i < |b.tasks| && MayStart(b.tasks[i], above, cyclicOnly) ensures b.tasks[i].next > time {
      assert SameTask(a.tasks[i], b.tasks[i]);
    }
    forall i | 0 <= i < |a.tasks| && MayStart(a.tasks[i], above, cyclicOnly) && a.tasks[i].next <= time
      ensures Runs(b.trace, i) > Runs(a.trace, i)
    {
      assert i in due;
      ServedMeansStarted(a, b, i);
    }
  }

  // Serving from a checkpoint, in these terms.
  lemma ServiceServes(a: Cpu, b: Cpu, above: nat)
    requires Progress(a, b) && a.stack != [] && a.stack[|a.stack| - 1] < |a.tasks|
    requires a.state == RUN && a.tasks[a.stack[|a.stack| - 1]].def.kind != STARTUP && above == a.tasks[a.stack[|a.stack| - 1]].def.priority
    requires InPriorityOrder(a.tasks, Level(b.trace, |a.trace|, |a.stack|), above, true)
    ensures StartedAbove(a, b)
    ensures AllAhead(b.tasks, above, true, a.clock) && EachStarted(a, b, above, true, a.clock) ==> ServedAbove(a, b, a.clock)
  {
  }
}
