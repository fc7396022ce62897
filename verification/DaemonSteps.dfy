/**
 The daemon's goroutines as one step system (internal/daemon/daemon.go).

 A step is what happens between two points where another goroutine may run: one SQL
 statement, one critical section of the timers map, one firing of a time.AfterFunc
 timer. `Apply` gives the state after a step; a step that is not enabled changes nothing.
 */
module DaemonSteps {
  import opened Wrappers
  import opened QueueTable
  import opened Strings

  datatype Kind = Saved | Enqueued | Processed

  /** A row of event_log. */
  datatype Event = Event(kind: Kind, path: string)

  /** An armed timer: its closure's path and the time it is due. */
  datatype Timer = Timer(path: string, due: int)

  /** How far a debounce callback has come: before Enqueue, before Append, before the delete. */
  datatype Stage = Fired | InQueue | InLog

  datatype Callback = Callback(path: string, stage: Stage)

  datatype Watcher = Waiting | SaveLogged(path: string) | WatcherGone

  datatype Worker = Polling | Holding(entry: Entry) | Appended(entry: Entry) | WorkerGone

  /**
   `queue` and `log` are in the database; the rest is lost in a crash. `timers` is
   fsWatcher's map from path to timer object; `armed` holds the timer objects that will
   fire, in the map or not; `handlers` the HTTP requests between Enqueue and Append.
   */
  datatype State = State(
    interval: int,
    now: int,
    queue: Table,
    log: seq<Event>,
    timers: map<string, nat>,
    armed: map<nat, Timer>,
    callbacks: map<nat, Callback>,
    handlers: map<nat, string>,
    watcher: Watcher,
    worker: Worker,
    nextId: nat)

  datatype Step =
    | Tick(elapsed: nat)
    | WatcherEvent(name: string, writeOrCreate: bool, dbOk: bool)
    | WatcherArm
    | WatcherStop
    | Fire(timer: nat)
    | CallbackEnqueue(callback: nat, mtime: int, gap: nat, dbOk: bool)
    | CallbackAppend(callback: nat, dbOk: bool)
    | CallbackDelete(callback: nat)
    | HttpEnqueue(body: string, mtime: int, gap: nat, dbOk: bool)
    | HttpAppend(handler: nat, dbOk: bool)
    | WorkerDequeue(dbOk: bool)
    | WorkerAppend(dbOk: bool)
    | WorkerRemove(dbOk: bool)
    | WorkerStop
    | Crash

  function Init(interval: int): State {
    State(interval, 0, EMPTY, [], map[], map[], map[], map[], Waiting, Polling, 0)
  }

  function AppendEvent(log: seq<Event>, kind: Kind, path: string, dbOk: bool): seq<Event> {
    if dbOk then log + [Event(kind, path)] else log
  }

  /** The path whose Enqueue succeeds in this step, if any. */
  function EnqueuedPath(s: State, step: Step): Option<string> {
    match step
    case CallbackEnqueue(cb, _, _, true) =>
      if cb in s.callbacks && s.callbacks[cb].stage == Fired then Some(s.callbacks[cb].path) else None
    case HttpEnqueue(body, _, _, true) => if TrimSpace(body) == "" then None else Some(TrimSpace(body))
    case _ => None
  }

  /** The path whose save the watcher takes up in this step, if any. */
  function SavedPath(s: State, step: Step): Option<string> {
    match step
    case WatcherEvent(name, true, _) => if s.watcher == Waiting && IsMarkdown(name) then Some(name) else None
    case _ => None
  }

  predicate Fires(s: State, step: Step) {
    step.Fire? && step.timer in s.armed && s.armed[step.timer].due <= s.now
  }

  /** Only a successful Enqueue, Dequeue or Remove touches the table. */
  function QueueAfter(s: State, step: Step): Table {
    match EnqueuedPath(s, step)
    case Some(path) => SqlEnqueue(s.queue, path, step.mtime, step.gap)
    case None =>
      if step == WorkerDequeue(true) && s.worker == Polling then SqlDequeue(s.queue).0
      else if step == WorkerRemove(true) && s.worker.Appended? then SqlRemove(s.queue, s.worker.entry.id).0
      else s.queue
  }

  /** Only the worker's own steps and a crash touch the worker; an error ends it. */
  function WorkerAfter(s: State, step: Step): Worker {
    match step
    case WorkerDequeue(dbOk) => (
      if s.worker != Polling then s.worker
      else if !dbOk then WorkerGone
      else match SqlDequeue(s.queue).1 case None => Polling case Some(e) => Holding(e))
    case WorkerAppend(dbOk) =>
      if !s.worker.Holding? then s.worker else if dbOk then Appended(s.worker.entry) else WorkerGone
    case WorkerRemove(dbOk) =>
      if !s.worker.Appended? then s.worker
      else if dbOk && SqlRemove(s.queue, s.worker.entry.id).1 == Done then Polling
      else WorkerGone
    case WorkerStop => if s.worker == Polling then WorkerGone else s.worker
    case Crash => Polling
    case _ => s.worker
  }

  function Apply(s: State, step: Step): State {
    match step
    case Tick(elapsed) => s.(now := s.now + elapsed)
    case WatcherEvent(_, _, dbOk) => (
      match SavedPath(s, step)
      case None => s
      case Some(path) => s.(log := AppendEvent(s.log, Saved, path, dbOk), watcher := SaveLogged(path)))
    case WatcherArm => if s.watcher.SaveLogged? then ArmTimer(s, s.watcher.path) else s
    case WatcherStop => if s.watcher == Waiting then s.(watcher := WatcherGone) else s
    case Fire(t) =>
      if Fires(s, step)
      then s.(armed := s.armed - {t}, callbacks := s.callbacks[s.nextId := Callback(s.armed[t].path, Fired)],
        nextId := s.nextId + 1)
      else s
    case CallbackEnqueue(cb, _, _, dbOk) =>
      if cb !in s.callbacks || s.callbacks[cb].stage != Fired then s
      else if !dbOk then s.(callbacks := s.callbacks - {cb})
      else
        var path := s.callbacks[cb].path;
        s.(queue := QueueAfter(s, step), callbacks := s.callbacks[cb := Callback(path, InQueue)])
    case CallbackAppend(cb, dbOk) =>
      if cb !in s.callbacks || s.callbacks[cb].stage != InQueue then s
      else
        var path := s.callbacks[cb].path;
        s.(log := AppendEvent(s.log, Enqueued, path, dbOk), callbacks := s.callbacks[cb := Callback(path, InLog)])
    case CallbackDelete(cb) =>
      if cb !in s.callbacks || s.callbacks[cb].stage != InLog then s
      else s.(timers := s.timers - {s.callbacks[cb].path}, callbacks := s.callbacks - {cb})
    case HttpEnqueue(_, _, _, _) => (
      match EnqueuedPath(s, step)
      case None => s
      case Some(path) =>
        s.(queue := QueueAfter(s, step), handlers := s.handlers[s.nextId := path], nextId := s.nextId + 1))
    case HttpAppend(h, dbOk) =>
      if h !in s.handlers then s
      else s.(log := AppendEvent(s.log, Enqueued, s.handlers[h], dbOk), handlers := s.handlers - {h})
    case WorkerDequeue(_) => s.(queue := QueueAfter(s, step), worker := WorkerAfter(s, step))
    case WorkerAppend(dbOk) =>
      if !s.worker.Holding? then s
      else s.(log := AppendEvent(s.log, Processed, s.worker.entry.path, dbOk), worker := WorkerAfter(s, step))
    case WorkerRemove(_) => s.(queue := QueueAfter(s, step), worker := WorkerAfter(s, step))
    case WorkerStop => s.(worker := WorkerAfter(s, step))
    case Crash =>
      s.(timers := map[], armed := map[], callbacks := map[], handlers := map[], watcher := Waiting,
         worker := WorkerAfter(s, step))
  }

  /** Reset the timer in the map, whether or not it is still armed, or start a new one. */
  function ArmTimer(s: State, path: string): State {
    if path in s.timers then s.(armed := s.armed[s.timers[path] := Timer(path, s.now + s.interval)], watcher := Waiting)
    else
      s.(timers := s.timers[path := s.nextId],
         armed := s.armed[s.nextId := Timer(path, s.now + s.interval)],
         watcher := Waiting,
         nextId := s.nextId + 1)
  }

  /** The state before step n. */
  function At(s: State, steps: seq<Step>, n: nat): State
    requires n <= |steps|
  {
    if n == 0 then s else Apply(At(s, steps, n - 1), steps[n - 1])
  }

  /* ---------- what a step does to the table and to the worker ---------- */

  lemma StepShape(s: State, step: Step)
    ensures Apply(s, step).queue == QueueAfter(s, step)
    ensures Apply(s, step).worker == WorkerAfter(s, step)
  {
    QueueShape(s, step);
    WorkerShape(s, step);
  }

  lemma QueueShape(s: State, step: Step)
    ensures Apply(s, step).queue == QueueAfter(s, step)
  {
    hide SqlEnqueue, SqlDequeue, SqlRemove, TrimSpace;
  }

  lemma WorkerShape(s: State, step: Step)
    ensures Apply(s, step).worker == WorkerAfter(s, step)
  {
    hide SqlEnqueue, SqlDequeue, SqlRemove, TrimSpace;
  }

  /* ---------- what every step keeps ---------- */

  ghost predicate HasRow(t: Table, id: nat, path: string, status: Status) {
    id in t.rows && t.rows[id].path == path && t.rows[id].status == status
  }

  ghost predicate Inv(s: State) {
    Valid(s.queue) && WorkerHasItsRow(s)
  }

  ghost predicate WorkerHasItsRow(s: State) {
    s.worker.Holding? || s.worker.Appended? ==> HasRow(s.queue, s.worker.entry.id, s.worker.entry.path, Processing)
  }

  /** Enqueue leaves every processing row alone, and every row its path. */
  lemma EnqueueKeepsRows(t: Table, path: string, mtime: int, gap: nat)
    requires Valid(t)
    ensures Valid(SqlEnqueue(t, path, mtime, gap))
    ensures forall id | id in t.rows :: HasRow(SqlEnqueue(t, path, mtime, gap), id, t.rows[id].path, t.rows[id].status)
    ensures exists id :: HasRow(SqlEnqueue(t, path, mtime, gap), id, path, Pending)
  {
    EnqueueKeepsValid(t, path, mtime, gap);
    var t' := SqlEnqueue(t, path, mtime, gap);
    match FindPending(t.rows, path, None, t.lastId)
    case Some(id) => assert HasRow(t', id, path, Pending);
    case None => assert HasRow(t', t.lastId + 1 + gap, path, Pending);
  }

  lemma StepKeepsInv(s: State, step: Step)
    requires Inv(s)
    ensures Inv(Apply(s, step))
  {
    StepShape(s, step);
    hide Apply, Valid, SqlEnqueue;
    if EnqueuedPath(s, step).Some? {
      EnqueueKeepsRows(s.queue, EnqueuedPath(s, step).value, step.mtime, step.gap);
    } else if step == WorkerDequeue(true) && s.worker == Polling {
      DequeueKeepsValid(s.queue);
      DequeuedRow(s.queue);
    } else if step == WorkerRemove(true) && s.worker.Appended? {
      RemoveKeepsValid(s.queue, s.worker.entry.id);
    }
  }

  lemma DequeuedRow(t: Table)
    ensures
      var (t', e) := SqlDequeue(t);
      e.Some? ==> HasRow(t', e.value.id, e.value.path, Processing)
  {}

  lemma {:induction false} RunKeepsInv(s: State, steps: seq<Step>, n: nat)
    requires Inv(s) && n <= |steps|
    ensures Inv(At(s, steps, n))
  {
    if n > 0 {
      RunKeepsInv(s, steps, n - 1);
      StepKeepsInv(At(s, steps, n - 1), steps[n - 1]);
    }
  }
}
