/**
 daemon.Daemon with the state its goroutines share. Each method is one atomic section of
 a goroutine and is proved to make exactly the step of DaemonSteps it stands for, so the
 theorems over step sequences hold of every interleaving of these methods.
 */
module Daemon {
  import opened Wrappers
  import opened QueueTable
  import opened DaemonSteps
  import opened DaemonPaths
  import opened Strings
  import AbstractQueue

  /** daemon.Config; `queue` holds the table of its queue, and a None or a false is a nil. */
  datatype Config = Config(
    hasDB: bool,
    hasIndex: bool,
    queue: Option<Queue>,
    workspaceRoot: string,
    socketPath: string,
    debounceInterval: int,
    flushInterval: int)

  /** What daemon.New objects to, in the order in which it looks. */
  datatype ConfigError =
    NoDB | NoIndex | NoQueue | NoWorkspaceRoot | NoSocketPath | BadDebounceInterval | BadFlushInterval

  /** The configuration has this fault. */
  predicate HasFault(cfg: Config, fault: ConfigError) {
    match fault
    case NoDB => !cfg.hasDB
    case NoIndex => !cfg.hasIndex
    case NoQueue => cfg.queue.None?
    case NoWorkspaceRoot => cfg.workspaceRoot == ""
    case NoSocketPath => cfg.socketPath == ""
    case BadDebounceInterval => cfg.debounceInterval <= 0
    case BadFlushInterval => cfg.flushInterval <= 0
  }

  function Rank(fault: ConfigError): nat {
    match fault
    case NoDB => 0 case NoIndex => 1 case NoQueue => 2 case NoWorkspaceRoot => 3
    case NoSocketPath => 4 case BadDebounceInterval => 5 case BadFlushInterval => 6
  }

  class Daemon {
    const interval: int
    const queue: Queue
    var now: int
    var log: seq<Event>
    var timers: map<string, nat>
    var armed: map<nat, Timer>
    var callbacks: map<nat, Callback>
    var handlers: map<nat, string>
    var watcher: Watcher
    var worker: Worker
    var nextId: nat

    ghost function Snapshot(): State
      reads this, queue
    {
      State(interval, now, queue.table, log, timers, armed, callbacks, handlers, watcher, worker, nextId)
    }

    ghost predicate Valid()
      reads this, queue
    {
      interval > 0 && Inv(Snapshot())
    }

    /** `NewDaemon` below is daemon.New. The queue's table may hold what an earlier process left. */
    constructor (interval: int, queue: Queue)
      requires interval > 0 && QueueTable.Valid(queue.table)
      ensures Valid() && this.queue == queue
      ensures Snapshot() == Init(interval).(queue := queue.table)
    {
      this.interval := interval;
      this.queue := queue;
      now, log, nextId := 0, [], 0;
      timers, armed, callbacks, handlers := map[], map[], map[], map[];
      watcher, worker := Waiting, Polling;
    }

    /* ---------- fsWatcher ---------- */

    /** A filesystem event: writes and creations of files ending in ".md" are logged at once; others do nothing. */
    method OnEvent(name: string, writeOrCreate: bool, dbOk: bool)
      requires Valid() && watcher == Waiting
      modifies this`log, this`watcher
      ensures Valid() && Snapshot() == Apply(old(Snapshot()), WatcherEvent(name, writeOrCreate, dbOk))
      ensures if writeOrCreate && exists stem: string :: name == stem + ".md"
              then watcher == SaveLogged(name) && log == if dbOk then old(log) + [Event(Saved, name)] else old(log)
              else watcher == Waiting && log == old(log)
    {
      MarkdownIff(name);
      if !writeOrCreate || !IsMarkdown(name) {
        return;
      }
      if dbOk {
        log := log + [Event(Saved, name)];
      }
      watcher := SaveLogged(name);
    }

    /** The critical section that resets or starts the path's timer. */
    method ResetTimer()
      requires Valid() && watcher.SaveLogged?
      modifies this`timers, this`armed, this`watcher, this`nextId
      ensures Valid() && Snapshot() == Apply(old(Snapshot()), WatcherArm)
    {
      var path := watcher.path;
      if path in timers {
        armed := armed[timers[path] := Timer(path, now + interval)];
      } else {
        timers := timers[path := nextId];
        armed := armed[nextId := Timer(path, now + interval)];
        nextId := nextId + 1;
      }
      watcher := Waiting;
    }

    /* ---------- time.AfterFunc ---------- */

    method FireTimer(t: nat)
      requires Valid() && t in armed && armed[t].due <= now
      modifies this`armed, this`callbacks, this`nextId
      ensures Valid() && Snapshot() == Apply(old(Snapshot()), Fire(t))
    {
      callbacks := callbacks[nextId := Callback(armed[t].path, Fired)];
      nextId := nextId + 1;
      armed := armed - {t};
    }

    /** A failed Enqueue returns at once and leaves the timer's map entry behind. */
    method EnqueueFromCallback(cb: nat, mtime: int, gap: nat, dbOk: bool)
      requires Valid() && cb in callbacks && callbacks[cb].stage == Fired
      modifies this`callbacks, queue
      ensures Valid() && Snapshot() == Apply(old(Snapshot()), CallbackEnqueue(cb, mtime, gap, dbOk))
    {
      StepKeepsInv(Snapshot(), CallbackEnqueue(cb, mtime, gap, dbOk));
      var path := callbacks[cb].path;
      var err := queue.Enqueue(path, mtime, gap, dbOk);
      callbacks := if err.Some? then callbacks - {cb} else callbacks[cb := Callback(path, InQueue)];
    }

    method LogFromCallback(cb: nat, dbOk: bool)
      requires Valid() && cb in callbacks && callbacks[cb].stage == InQueue
      modifies this`callbacks, this`log
      ensures Valid() && Snapshot() == Apply(old(Snapshot()), CallbackAppend(cb, dbOk))
    {
      var path := callbacks[cb].path;
      if dbOk {
        log := log + [Event(Enqueued, path)];
      }
      callbacks := callbacks[cb := Callback(path, InLog)];
    }

    method ForgetTimer(cb: nat)
      requires Valid() && cb in callbacks && callbacks[cb].stage == InLog
      modifies this`callbacks, this`timers
      ensures Valid() && Snapshot() == Apply(old(Snapshot()), CallbackDelete(cb))
    {
      timers := timers - {callbacks[cb].path};
      callbacks := callbacks - {cb};
    }

    /* ---------- handleEnqueue ---------- */

    /** A blank body is a bad request; a failing Enqueue an internal error; neither changes anything. */
    method HandleEnqueue(body: string, mtime: int, gap: nat, dbOk: bool) returns (status: int)
      requires Valid()
      modifies this`handlers, this`nextId, queue
      ensures Valid() && Snapshot() == Apply(old(Snapshot()), HttpEnqueue(body, mtime, gap, dbOk))
      ensures status == if Blank(body) then 400 else if dbOk then 200 else 500
      ensures status == 200 ==> exists path, id :: IsBodyOf(body, path) && HasRow(queue.table, id, path, Pending)
    {
      StepKeepsInv(Snapshot(), HttpEnqueue(body, mtime, gap, dbOk));
      RequestEnqueuesItsPath(Snapshot(), body, mtime, gap);
      hide IsBodyOf;
      var path := TrimSpace(body);
      if path == "" {
        return 400;
      }
      var err := queue.Enqueue(path, mtime, gap, dbOk);
      if err.Some? {
        return 500;
      }
      handlers := handlers[nextId := path];
      nextId := nextId + 1;
      return 200;
    }

    method LogFromHandler(h: nat, dbOk: bool)
      requires Valid() && h in handlers
      modifies this`handlers, this`log
      ensures Valid() && Snapshot() == Apply(old(Snapshot()), HttpAppend(h, dbOk))
    {
      if dbOk {
        log := log + [Event(Enqueued, handlers[h])];
      }
      handlers := handlers - {h};
    }

    /* ---------- queueWorker ---------- */

    method TakeEntry(dbOk: bool)
      requires Valid() && worker == Polling
      modifies this`worker, queue
      ensures Valid() && Snapshot() == Apply(old(Snapshot()), WorkerDequeue(dbOk))
    {
      StepKeepsInv(Snapshot(), WorkerDequeue(dbOk));
      var entry, err := queue.Dequeue(dbOk);
      if err.Some? {
        worker := WorkerGone;
      } else if entry.Some? {
        worker := Holding(entry.value);
      }
    }

    method LogProcessed(dbOk: bool)
      requires Valid() && worker.Holding?
      modifies this`worker, this`log
      ensures Valid() && Snapshot() == Apply(old(Snapshot()), WorkerAppend(dbOk))
    {
      StepKeepsInv(Snapshot(), WorkerAppend(dbOk));
      if !dbOk {
        worker := WorkerGone;
      } else {
        log := log + [Event(Processed, worker.entry.path)];
        worker := Appended(worker.entry);
      }
    }

    method RemoveEntry(dbOk: bool)
      requires Valid() && worker.Appended?
      modifies this`worker, queue
      ensures Valid() && Snapshot() == Apply(old(Snapshot()), WorkerRemove(dbOk))
    {
      StepKeepsInv(Snapshot(), WorkerRemove(dbOk));
      var err := queue.Remove(worker.entry.id, dbOk);
      worker := if err.Some? then WorkerGone else Polling;
    }

    method FinishEntry()
      requires Valid() && worker.Holding?
      modifies this`worker, this`log, queue
      ensures Valid() && worker == Polling
      ensures log == old(log) + [Event(Processed, old(worker).entry.path)]
      ensures queue.table == SqlRemove(old(queue.table), old(worker).entry.id).0
    {
      LogProcessed(true);
      RemoveEntry(true);
    }

    /** One turn of queueWorker's loop without faults, `q` listing the pending rows. */
    method ProcessOne(ghost q: seq<Entry>) returns (found: bool)
      requires Valid() && worker == Polling && AbstractQueue.Lists(queue.table, q)
      modifies this`worker, this`log, queue
      ensures Valid() && worker == Polling
      ensures found <==> q != []
      ensures !found ==> queue.table == old(queue.table) && log == old(log)
      ensures found ==>
                && log == old(log) + [Event(Processed, q[0].path)]
                && queue.table.rows == old(queue.table.rows) - {q[0].id}
                && AbstractQueue.Lists(queue.table, q[1..])
    {
      ghost var t := queue.table;
      assert QueueTable.Valid(t);
      hide AbstractQueue.Lists, Inv, QueueTable.Valid, SqlDequeue, SqlRemove;
      HeadOrNothing(t, q);
      if q != [] {
        PopAndRemove(t, q);
      }
      TakeEntry(true);
      if worker == Polling {
        return false;
      }
      FinishEntry();
      return true;
    }

    /**
     queueWorker's loop left alone until nothing is pending: it logs one processed event per
     pending row, in the order of the abstract queue, and takes exactly those rows off the table.
     */
    method DrainQueue(ghost q: seq<Entry>)
      requires Valid() && worker == Polling && AbstractQueue.Lists(queue.table, q)
      modifies this`worker, this`log, queue
      ensures Valid() && worker == Polling
      ensures log == old(log) + ProcessedEvents(q)
      ensures queue.table.rows == old(queue.table.rows) - Ids(q)
      ensures forall id: nat :: !IsPending(queue.table.rows, id)
    {
      hide AbstractQueue.Lists, Inv, DaemonSteps.Apply, QueueTable.Valid;
      ghost var k := 0;
      var found := true;
      while found
        invariant Valid() && k <= |q| && AbstractQueue.Lists(queue.table, q[k..])
        invariant worker == Polling
        invariant log == old(log) + ProcessedEvents(q[..k])
        invariant queue.table.rows == old(queue.table.rows) - Ids(q[..k])
        invariant !found ==> k == |q|
        decreases found, |q| - k
      {
        found := ProcessOne(q[k..]);
        if found {
          assert q[k..][1..] == q[k + 1..] && q[..k + 1][..k] == q[..k];
          k := k + 1;
        }
      }
      assert q[..k] == q && q[k..] == [];
      AbstractQueue.NothingListed(queue.table);
    }
  }

  /** daemon.New: a daemon in its initial state over the queue's table, or the first fault of the configuration. */
  method NewDaemon(cfg: Config) returns (d: Daemon?, err: Option<ConfigError>)
    requires cfg.queue.Some? ==> QueueTable.Valid(cfg.queue.value.table)
    ensures d != null <==> err.None?
    ensures err.None? <==> forall fault :: !HasFault(cfg, fault)
    ensures err.None? <==>
      && cfg.hasDB && cfg.hasIndex && cfg.queue.Some? && cfg.workspaceRoot != "" && cfg.socketPath != ""
      && cfg.debounceInterval > 0 && cfg.flushInterval > 0
    ensures err.Some? ==> HasFault(cfg, err.value) && forall fault | HasFault(cfg, fault) ::
      Rank(err.value) <= Rank(fault)
    ensures d != null ==> cfg.queue.Some? && fresh(d) && d.Valid() && d.queue == cfg.queue.value
    ensures d != null ==> d.Snapshot() == Init(cfg.debounceInterval).(queue := cfg.queue.value.table)
  {
    if !cfg.hasDB {
      assert HasFault(cfg, NoDB);
      return null, Some(NoDB);
    }
    if !cfg.hasIndex {
      assert HasFault(cfg, NoIndex);
      return null, Some(NoIndex);
    }
    if cfg.queue.None? {
      assert HasFault(cfg, NoQueue);
      return null, Some(NoQueue);
    }
    if cfg.workspaceRoot == "" {
      assert HasFault(cfg, NoWorkspaceRoot);
      return null, Some(NoWorkspaceRoot);
    }
    if cfg.socketPath == "" {
      assert HasFault(cfg, NoSocketPath);
      return null, Some(NoSocketPath);
    }
    if cfg.debounceInterval <= 0 {
      assert HasFault(cfg, BadDebounceInterval);
      return null, Some(BadDebounceInterval);
    }
    if cfg.flushInterval <= 0 {
      assert HasFault(cfg, BadFlushInterval);
      return null, Some(BadFlushInterval);
    }
    var daemon := new Daemon(cfg.debounceInterval, cfg.queue.value);
    return daemon, None;
  }

  function ProcessedEvents(q: seq<Entry>): seq<Event> {
    if q == [] then [] else ProcessedEvents(q[..|q| - 1]) + [Event(Processed, q[|q| - 1].path)]
  }

  function Ids(q: seq<Entry>): set<nat> {
    if q == [] then {} else Ids(q[..|q| - 1]) + {q[|q| - 1].id}
  }

  lemma HeadOrNothing(t: Table, q: seq<Entry>)
    requires QueueTable.Valid(t) && AbstractQueue.Lists(t, q)
    ensures SqlDequeue(t).1 == if q == [] then None else Some(q[0])
    ensures q == [] ==> SqlDequeue(t).0 == t
  {
    if q == [] {
      AbstractQueue.NothingListed(t);
    } else {
      AbstractQueue.HeadIsFirst(t, q);
    }
  }

  /** Dequeueing the head of the list and deleting it leaves the tail of the list. */
  lemma PopAndRemove(t: Table, q: seq<Entry>)
    requires QueueTable.Valid(t) && AbstractQueue.Lists(t, q) && q != []
    ensures var t' := SqlRemove(SqlDequeue(t).0, q[0].id).0;
            t'.rows == t.rows - {q[0].id} && AbstractQueue.Lists(t', q[1..])
  {
    AbstractQueue.HeadIsFirst(t, q);
    HeadTakenOut(t, q[0]);
    assert q[1..] == AbstractQueue.Without(q, 0);
    AbstractQueue.Detach(t, q, 0, SqlRemove(SqlDequeue(t).0, q[0].id).0);
  }

  lemma HeadTakenOut(t: Table, e: Entry)
    requires FirstPending(t.rows, t.lastId) == Some(e.id)
    ensures var t' := SqlRemove(SqlDequeue(t).0, e.id).0;
            t'.rows == t.rows - {e.id} && AbstractQueue.SamePendingBut(t, t', e.id) && !IsPending(t'.rows, e.id)
  {}
}
