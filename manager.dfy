/** Tickwork::Manager as a class: the registered events, the callback
    registry, the default and error handlers, the data store, the number
    of live job threads and the record of what happened are fields, and
    each method changes them as the functions of TickworkRegistry and
    TickworkDispatch say. */
module TickworkManager {
  import opened Tickwork
  import opened TickworkEvent
  import opened TickworkDispatch
  import opened TickworkRegistry

  class Manager {
    const managerKey: string    // Manager::MANAGER_KEY, the one name no job may take
    const config: Config
    var events: seq<Event>
    var callbacks: map<Phase, seq<CallableId>>
    var handler: Option<CallableId>
    var errorHandler: Option<CallableId>
    var store: map<string, int>  // the data store: key to the ms of the time written
    var threads: nat             // live threads created by this manager
    var trace: seq<Action>

    /** Every registered name is accepted by Event and no two are equal. */
    ghost predicate Valid()
      reads this`events
    {
      JobsValid(events, managerKey)
    }

    /** The part of the manager a tick changes. */
    function State(): St
      reads this`store, this`threads, this`trace
    {
      St(store, threads, trace)
    }

    /** The part of the manager a tick reads, with the application's code. */
    function Context(o: Oracles): Ctx
      reads this`callbacks, this`errorHandler
    {
      Ctx(callbacks, config.maxThreads, errorHandler, o)
    }

    /** What a registration reads besides the events. */
    function Reg(atParses: string -> bool): Registrar
      reads this`handler
    {
      Registrar(handler, config, managerKey, atParses)
    }

    /** A new manager: no events, no callbacks, no handlers, no thread. */
    constructor(managerKey: string, config: Config, store: map<string, int>)
      ensures this.managerKey == managerKey && this.config == config && this.store == store
      ensures events == [] && callbacks == map[] && handler == None && errorHandler == None
      ensures threads == 0 && trace == []
      ensures Valid()
    {
      this.managerKey := managerKey;
      this.config := config;
      this.store := store;
      events := [];
      callbacks := map[];
      handler := None;
      errorHandler := None;
      threads := 0;
      trace := [];
    }

    /** handler: a given block becomes the default handler; the handler is
        returned, and its absence raises NoHandlerDefined. */
    method Handler(block: Option<CallableId>) returns (r: Result<CallableId>)
      modifies this`handler
      ensures handler == if block.Some? then block else old(handler)
      ensures r == HandlerFor(block, old(handler))
    {
      if block.Some? {
        handler := block;
      }
      r := if handler.Some? then Ok(handler.value) else Err(NoHandlerDefined);
    }

    /** error_handler: a given block becomes the error handler, which is
        returned. */
    method ErrorHandler(block: Option<CallableId>) returns (r: Option<CallableId>)
      modifies this`errorHandler
      ensures errorHandler == if block.Some? then block else old(errorHandler)
      ensures r == errorHandler
    {
      if block.Some? {
        errorHandler := block;
      }
      r := errorHandler;
    }

    /** on: append the block to a known phase's list, or fail and leave the
        registry as it was. */
    method On(name: string, block: CallableId) returns (err: Option<Error>)
      modifies this`callbacks
      ensures var a := AddCallback(old(callbacks), name, block);
        (a.Ok? ==> err.None? && callbacks == a.value)
        && (a.Err? ==> err == Some(a.error) && callbacks == old(callbacks))
    {
      var p := PhaseNamed(name);
      if p.None? {
        return Some(UnsupportedCallback(name));
      }
      callbacks := callbacks[p.value := HandlersOf(callbacks, p.value) + [block]];
      err := None;
    }

    /** register: the event Registration builds is appended; on an error
        the events are unchanged. */
    method Register(period: int, job: Job, block: Option<CallableId>, opts: Options, at: Option<string>,
                    atParses: string -> bool) returns (r: Result<Event>)
      requires Valid()
      modifies this`events
      ensures r == Registration(old(events), Reg(atParses), period, job, block, opts, at)
      ensures events == Added(old(events), r)
      ensures Valid()
    {
      r := Registration(events, Reg(atParses), period, job, block, opts, at);
      RegistrationKeepsValid(events, Reg(atParses), period, job, block, opts, at);
      if r.Ok? {
        events := events + [r.value];
      }
    }

    /** every, with every_with_multiple_times looping over a list of :at
        values. */
    method Every(period: int, job: Job, block: Option<CallableId>, opts: Options, at: AtOption,
                 atParses: string -> bool) returns (err: Option<Error>)
      requires Valid()
      modifies this`events
      ensures Outcome(events, err) == TickworkRegistry.Every(old(events), Reg(atParses), period, job, block, opts, at)
      ensures Valid()
    {
      match at
      case AtSingle(a) =>
        var r := Register(period, job, block, opts, a, atParses);
        err := if r.Err? then Some(r.error) else None;
      case AtEach(ats) =>
        if ats == [] {
          return None;
        }
        if job.NotString? {
          return Some(ConcatFailed);
        }
        var i := 0;
        while i < |ats|
          invariant 0 <= i <= |ats| && Valid()
          invariant RegisterEach(old(events), Reg(atParses), period, job.name, block, opts, ats)
                 == RegisterEach(events, Reg(atParses), period, job.name, block, opts, ats[i..])
        {
          assert ats[i..][0] == ats[i] && ats[i..][1..] == ats[i + 1..];
          var r := Register(period, Name(AtJobName(job.name, ats[i])), block, opts, Some(ats[i]), atParses);
          if r.Err? {
            return Some(r.error);
          }
          i := i + 1;
        }
        err := None;
    }

    /** fire_callbacks, with its firing recorded. */
    method FireCallbacks(phase: Phase, subject: Option<string>, o: Oracles) returns (ok: bool)
      modifies this`trace
      ensures var f := Fire(Context(o), phase, subject, old(State()));
        ok == f.ok && State() == f.st
    {
      ok := TickworkDispatch.FireCallbacks(callbacks, phase, subject, trace, o.hook);
      trace := trace + [Fired(phase, subject, Invocations(callbacks, phase, subject, trace, o.hook))];
    }

    /** Event#execute: the body, then on its exception the log and the
        error handler, whose own exception is returned as raised. */
    method Execute(e: Event, o: Oracles) returns (raised: Option<string>)
      modifies this`trace
      ensures var s := ExecuteSpec(e, old(State()), Context(o));
        State() == s.st && raised == if s.Abort? then Some(s.message) else None
    {
      var last := if e.key in store then Some(store[e.key]) else None;
      trace := trace + [Executed(e.job, last)];
      raised := None;
      var out := o.body(e.block, e.job, last);
      if out.Some? {
        trace := trace + [LoggedError(out.value)];
        if errorHandler.Some? {
          trace := trace + [HandledError(errorHandler.value, out.value)];
          raised := o.onError(errorHandler.value, out.value);
        }
      }
    }

    /** thread_available?, on the count of live threads. */
    function ThreadAvailable(): (r: bool)
      reads this`threads
      ensures r ==> threads + 1 <= config.maxThreads
      ensures !r ==> threads >= config.maxThreads
    {
      threads < config.maxThreads
    }

    /** Event#run: log, write `last`, then execute inline, take a free
        thread, or log that none is free. */
    method RunEvent(e: Event, t: Time, o: Oracles) returns (raised: Option<string>)
      modifies this`store, this`threads, this`trace
      ensures var s := RunSpec(e, t, old(State()), Context(o));
        State() == s.st && raised == if s.Abort? then Some(s.message) else None
    {
      var v := ConvertTimezone(e.timezone, t).ms;
      store := store[e.key := v];
      trace := trace + [Triggered(e.job), LastWritten(e.key, v)];
      raised := None;
      if e.thread {
        if ThreadAvailable() {
          threads := threads + 1;
          trace := trace + [Spawned(e.job)];
        } else {
          trace := trace + [Exhausted(e.job)];
        }
      } else {
        raised := Execute(e, o);
      }
    }

    /** tick(t): before_tick, the due events, after_tick. */
    method Tick(t: Time, o: Oracles) returns (r: TickResult)
      modifies this`store, this`threads, this`trace
      ensures TickRun(r, State()) == TickSpec(events, Context(o), t, old(State()))
    {
      var ok := FireCallbacks(BeforeTick, None, o);
      if !ok {
        ok := FireCallbacks(AfterTick, None, o);
        return Vetoed;
      }
      var due := EventsToRun(events, store, t, o);
      var raised := RunDue(due, t, o);
      if raised.Some? {
        return Raised(raised.value);
      }
      ok := FireCallbacks(AfterTick, None, o);
      r := Returned(due);
    }

    /** The loop of tick over the due events: before_run, run, after_run
        for each, ended early by an exception from the error handler. */
    method RunDue(due: seq<Event>, t: Time, o: Oracles) returns (raised: Option<string>)
      modifies this`store, this`threads, this`trace
      ensures var s := RunAll(due, t, old(State()), Context(o));
        State() == s.st && raised == if s.Abort? then Some(s.message) else None
    {
      var i := 0;
      while i < |due|
        invariant 0 <= i <= |due|
        invariant RunAll(due, t, old(State()), Context(o)) == RunAll(due[i..], t, State(), Context(o))
      {
        var e := due[i];
        assert due[i..][0] == e && due[i..][1..] == due[i + 1..];
        ghost var pre := State();
        var go := FireCallbacks(BeforeRun, Some(e.job), o);
        if !go {
          RunAllVetoStep(due[i..], t, pre, Context(o));
        } else {
          RunAllRunStep(due[i..], t, pre, Context(o));
          raised := RunEvent(e, t, o);
          if raised.Some? {
            return;
          }
          go := FireCallbacks(AfterRun, Some(e.job), o);
        }
        i := i + 1;
      }
      raised := None;
    }

    /** Threads of this manager that finish: the environment's step. */
    method ThreadsFinished(n: nat)
      requires n <= threads
      modifies this`threads
      ensures threads == old(threads) - n
    {
      threads := threads - n;
    }
  }
}
