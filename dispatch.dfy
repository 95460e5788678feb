/** The per-tick pipeline of Tickwork::Manager and Tickwork::Event as
    functions on the manager's changing state: the callback phases, the firing
    of a phase's handlers, the choice of due events and what `run` and
    `execute` do to the store, the thread count and the record of what
    happened. The Manager class in TickworkManager is proved to behave as
    these functions say; the lemmas here state what the pipeline promises. */
module TickworkDispatch {
  import opened Tickwork
  import opened TickworkEvent

  datatype Phase = BeforeTick | AfterTick | BeforeRun | AfterRun

  function PhaseName(p: Phase): string {
    match p
    case BeforeTick => "before_tick"
    case AfterTick => "after_tick"
    case BeforeRun => "before_run"
    case AfterRun => "after_run"
  }

  /** The phase a callback name stands for; only the four phases are known. */
  function PhaseNamed(name: string): (r: Option<Phase>)
    ensures r.Some? ==> PhaseName(r.value) == name
    ensures r.None? ==> forall p: Phase :: PhaseName(p) != name
  {
    if name == "before_tick" then Some(BeforeTick)
    else if name == "after_tick" then Some(AfterTick)
    else if name == "before_run" then Some(BeforeRun)
    else if name == "after_run" then Some(AfterRun)
    else None
  }

  /** What the manager did, in order: loggers, the store, threads and the
      handlers are observed through this record. */
  datatype Action =
    | Fired(phase: Phase, subject: Option<string>, answers: seq<bool>) // one fire_callbacks: the answers of the handlers it called
    | Triggered(job: string)                 // the info line "Triggering '<job>'"
    | LastWritten(key: string, value: int)   // `last=` on the data store
    | Executed(job: string, last: Option<int>) // the job body called inline with (job, last)
    | Spawned(job: string)                   // the job body handed to a new thread
    | Exhausted(job: string)                 // the error line ThreadsExhausted: no free thread, the body is skipped
    | LoggedError(message: string)           // log_error of what a job body raised
    | HandledError(handler: CallableId, message: string)

  /** One call of a hook handler: what had happened before the firing, the
      phase, the event it is about (for before_run and after_run), the
      handler's position in the phase's list and the handler itself. */
  datatype HookCall = HookCall(history: seq<Action>, phase: Phase, subject: Option<string>,
                               position: nat, handler: CallableId)

  /** The behaviour of the application's code, which the core only calls:
      a hook's answer, an :if predicate, At#ready?, whether a job body raises
      (with which message), and whether the error handler raises. */
  datatype Oracles = Oracles(
    hook: HookCall -> bool,
    cond: (CallableId, Time) -> bool,
    atReady: (string, Time) -> bool,
    body: (CallableId, string, Option<int>) -> Option<string>,
    onError: (CallableId, string) -> Option<string>)

  /** The part of the manager a tick changes. */
  datatype St = St(store: map<string, int>, threads: nat, trace: seq<Action>)

  /** The part of the manager a tick reads without changing it. */
  datatype Ctx = Ctx(callbacks: map<Phase, seq<CallableId>>, maxThreads: int,
                     errorHandler: Option<CallableId>, o: Oracles)

  datatype Firing = Firing(ok: bool, st: St)

  /** Going on, or an exception from the error handler that ends the tick. */
  datatype Step = Continue(st: St) | Abort(st: St, message: string)

  /** What tick returns: nil when before_tick vetoes, the due events, or
      the exception that propagated out of it. */
  datatype TickResult = Vetoed | Returned(events: seq<Event>) | Raised(message: string)

  datatype TickRun = TickRun(result: TickResult, st: St)

  function HandlersOf(callbacks: map<Phase, seq<CallableId>>, phase: Phase): seq<CallableId> {
    if phase in callbacks then callbacks[phase] else []
  }

  /** The answers of the handlers from `from` on, called in order until one
      answers false. */
  function Answers(hs: seq<CallableId>, history: seq<Action>, phase: Phase, subject: Option<string>,
                   hook: HookCall -> bool, from: nat): (a: seq<bool>)
    requires from <= |hs|
    decreases |hs| - from
    ensures |a| <= |hs| - from
    ensures forall k :: 0 <= k < |a| ==> a[k] == hook(HookCall(history, phase, subject, from + k, hs[from + k]))
    ensures forall k :: 0 <= k < |a| - 1 ==> a[k]
    ensures |a| < |hs| - from ==> |a| > 0 && !a[|a| - 1]
  {
    if from == |hs| then []
    else if hook(HookCall(history, phase, subject, from, hs[from])) then
      [true] + Answers(hs, history, phase, subject, hook, from + 1)
    else
      [false]
  }

  function Invocations(callbacks: map<Phase, seq<CallableId>>, phase: Phase, subject: Option<string>,
                       history: seq<Action>, hook: HookCall -> bool): seq<bool> {
    Answers(HandlersOf(callbacks, phase), history, phase, subject, hook, 0)
  }

  /** fire_callbacks: true when no handler is registered, otherwise the
      conjunction of the handlers' answers, evaluated in order and stopping
      at the first false one. */
  function FireCallbacks(callbacks: map<Phase, seq<CallableId>>, phase: Phase, subject: Option<string>,
                         history: seq<Action>, hook: HookCall -> bool): (ok: bool)
    ensures phase !in callbacks ==> ok
    ensures ok <==> false !in Invocations(callbacks, phase, subject, history, hook)
    ensures var a := Invocations(callbacks, phase, subject, history, hook);
      ok <==> |a| == |HandlersOf(callbacks, phase)| && forall k :: 0 <= k < |a| ==> a[k]
    ensures var a := Invocations(callbacks, phase, subject, history, hook);
      !ok ==> |a| > 0 && !a[|a| - 1]
  {
    phase !in callbacks || false !in Invocations(callbacks, phase, subject, history, hook)
  }

  /** A firing of a phase and its record. */
  function Fire(ctx: Ctx, phase: Phase, subject: Option<string>, st: St): Firing {
    var a := Invocations(ctx.callbacks, phase, subject, st.trace, ctx.o.hook);
    Firing(FireCallbacks(ctx.callbacks, phase, subject, st.trace, ctx.o.hook),
           st.(trace := st.trace + [Fired(phase, subject, a)]))
  }

  /** `a` is `b` with some elements left out. */
  predicate SubsequenceOf<T(==)>(a: seq<T>, b: seq<T>)
    decreases |b|
  {
    a == [] || (b != [] && ((a[0] == b[0] && SubsequenceOf(a[1..], b[1..])) || SubsequenceOf(a, b[1..])))
  }

  /** events_to_run: the registered events that are due at t, in
      registration order. */
  function EventsToRun(events: seq<Event>, store: map<string, int>, t: Time, o: Oracles): (r: seq<Event>)
    decreases |events|
    ensures forall e :: e in r <==> e in events && RunNow(e, store, t, o.cond, o.atReady)
    ensures SubsequenceOf(r, events)
  {
    if events == [] then []
    else
      var rest := EventsToRun(events[1..], store, t, o);
      if RunNow(events[0], store, t, o.cond, o.atReady) then [events[0]] + rest else rest
  }

  function ThreadsExhausted(e: Event): string {
    "Threads exhausted; skipping " + ToS(e)
  }

  /** execute: call the body with the job and `last`; an exception from it
      is logged and handed to the error handler, whose own exception is not
      caught. */
  function ExecuteSpec(e: Event, st: St, ctx: Ctx): (r: Step)
    ensures r.st.store == st.store && r.st.threads == st.threads
    ensures var out := ctx.o.body(e.block, e.job, Last(e, st.store));
      r.Abort? <==> out.Some? && ctx.errorHandler.Some? && ctx.o.onError(ctx.errorHandler.value, out.value).Some?
    ensures r.Abort? ==> r.message == ctx.o.onError(ctx.errorHandler.value, ctx.o.body(e.block, e.job, Last(e, st.store)).value).value
  {
    var last := Last(e, st.store);
    var ran := st.(trace := st.trace + [Executed(e.job, last)]);
    match ctx.o.body(e.block, e.job, last)
    case None => Continue(ran)
    case Some(msg) =>
      var logged := ran.(trace := ran.trace + [LoggedError(msg)]);
      match ctx.errorHandler
      case None => Continue(logged)
      case Some(h) =>
        var handled := logged.(trace := logged.trace + [HandledError(h, msg)]);
        match ctx.o.onError(h, msg)
        case None => Continue(handled)
        case Some(m) => Abort(handled, m)
  }

  /** Event#run: log, write `last`, then run inline, hand the body to a new
      thread, or log that no thread is free. */
  function RunSpec(e: Event, t: Time, st: St, ctx: Ctx): (r: Step)
    ensures r.st.store == st.store[e.key := t.ms]
    ensures r.st.threads == if e.thread && st.threads < ctx.maxThreads then st.threads + 1 else st.threads
    ensures r.Abort? ==> !e.thread
  {
    var v := ConvertTimezone(e.timezone, t).ms;
    var written := st.(store := st.store[e.key := v],
                       trace := st.trace + [Triggered(e.job), LastWritten(e.key, v)]);
    if e.thread then
      if written.threads < ctx.maxThreads then
        Continue(written.(threads := written.threads + 1, trace := written.trace + [Spawned(e.job)]))
      else
        Continue(written.(trace := written.trace + [Exhausted(e.job)]))
    else
      ExecuteSpec(e, written, ctx)
  }

  /** The loop of tick over the due events: before_run may veto one event;
      an event that runs is followed by after_run. */
  function RunAll(due: seq<Event>, t: Time, st: St, ctx: Ctx): (r: Step)
    decreases |due|
    ensures st.threads <= r.st.threads
    ensures st.threads <= ctx.maxThreads ==> r.st.threads <= ctx.maxThreads
    ensures st.store.Keys <= r.st.store.Keys
    ensures r.Abort? ==> due != []
  {
    if due == [] then Continue(st)
    else
      var e := due[0];
      var g := Fire(ctx, BeforeRun, Some(e.job), st);
      if !g.ok then RunAll(due[1..], t, g.st, ctx)
      else
        match RunSpec(e, t, g.st, ctx)
        case Abort(s, m) => Abort(s, m)
        case Continue(s) => RunAll(due[1..], t, Fire(ctx, AfterRun, Some(e.job), s).st, ctx)
  }

  /** tick(t). */
  function TickSpec(events: seq<Event>, ctx: Ctx, t: Time, st: St): (r: TickRun)
    ensures r.result.Vetoed? <==> !Fire(ctx, BeforeTick, None, st).ok
    ensures r.result.Returned? ==> r.result.events == EventsToRun(events, st.store, t, ctx.o)
    ensures st.threads <= r.st.threads
    ensures st.threads <= ctx.maxThreads ==> r.st.threads <= ctx.maxThreads
    ensures st.store.Keys <= r.st.store.Keys
  {
    var b := Fire(ctx, BeforeTick, None, st);
    if !b.ok then
      TickRun(Vetoed, Fire(ctx, AfterTick, None, b.st).st)
    else
      var due := EventsToRun(events, b.st.store, t, ctx.o);
      match RunAll(due, t, b.st, ctx)
      case Abort(s, m) => TickRun(Raised(m), s)
      case Continue(s) => TickRun(Returned(due), Fire(ctx, AfterTick, None, s).st)
  }

  // ---- Projections of the record ----

  function FlatMap<A, X>(s: seq<A>, f: A -> seq<X>): seq<X>
    decreases |s|
  {
    if s == [] then [] else f(s[0]) + FlatMap(s[1..], f)
  }

  lemma {:induction false} FlatMapAppend<A, X>(s: seq<A>, u: seq<A>, f: A -> seq<X>)
    ensures FlatMap(s + u, f) == FlatMap(s, f) + FlatMap(u, f)
  {
    if s == [] {
      assert s + u == u;
    } else {
      assert (s + u)[1..] == s[1..] + u;
      FlatMapAppend(s[1..], u, f);
    }
  }

  lemma FlatMapOne<A, X>(a: A, f: A -> seq<X>)
    ensures FlatMap([a], f) == f(a)
  {
    assert [a][1..] == [];
  }

  /** The verdict of before_run on one event. */
  datatype Verdict = Verdict(job: string, approved: bool)

  function VerdictOf(a: Action): seq<Verdict> {
    if a.Fired? && a.phase == BeforeRun && a.subject.Some? then [Verdict(a.subject.value, false !in a.answers)] else []
  }
  function TriggeredJob(a: Action): seq<string> { if a.Triggered? then [a.job] else [] }
  function AfterRunJob(a: Action): seq<string> {
    if a.Fired? && a.phase == AfterRun && a.subject.Some? then [a.subject.value] else []
  }
  function TickFiring(a: Action): seq<Phase> {
    if a.Fired? && (a.phase == BeforeTick || a.phase == AfterTick) then [a.phase] else []
  }
  function WrittenKey(a: Action): seq<string> { if a.LastWritten? then [a.key] else [] }
  function DispatchedJob(a: Action): seq<string> {
    if a.Executed? || a.Spawned? || a.Exhausted? then [a.job] else []
  }
  function EventJob(e: Event): seq<string> { [e.job] }
  function EventKey(e: Event): seq<string> { [e.key] }
  function VerdictJob(v: Verdict): seq<string> { [v.job] }
  function ApprovedJob(v: Verdict): seq<string> { if v.approved then [v.job] else [] }

  /** The before_run verdicts of a record, in order. */
  function Verdicts(tr: seq<Action>): seq<Verdict> { FlatMap(tr, VerdictOf) }
  /** The jobs that ran (were triggered), in order. */
  function RanJobs(tr: seq<Action>): seq<string> { FlatMap(tr, TriggeredJob) }
  /** The jobs after_run fired for, in order. */
  function AfterRunJobs(tr: seq<Action>): seq<string> { FlatMap(tr, AfterRunJob) }
  /** The firings of before_tick and after_tick, in order. */
  function TickFirings(tr: seq<Action>): seq<Phase> { FlatMap(tr, TickFiring) }
  function WrittenKeys(tr: seq<Action>): seq<string> { FlatMap(tr, WrittenKey) }
  /** The jobs whose body was called inline, handed to a thread, or skipped
      for want of one, in order. */
  function Dispatched(tr: seq<Action>): seq<string> { FlatMap(tr, DispatchedJob) }
  function Jobs(es: seq<Event>): seq<string> { FlatMap(es, EventJob) }
  function Keys(es: seq<Event>): seq<string> { FlatMap(es, EventKey) }

  /** The due events that before_run approved, in order, the k-th verdict
      being about the k-th event. */
  function Approved(due: seq<Event>, vs: seq<Verdict>): seq<Event>
    decreases |due|
  {
    if due == [] || vs == [] then []
    else (if vs[0].approved then [due[0]] else []) + Approved(due[1..], vs[1..])
  }

  /** `m` after setting the keys of `ks` to `v`, one after the other. */
  function Overwrite(m: map<string, int>, ks: seq<string>, v: int): map<string, int>
    decreases |ks|
  {
    if ks == [] then m else Overwrite(m[ks[0] := v], ks[1..], v)
  }

  /** Overwrite sets exactly the keys of `ks` to `v` and leaves every other
      entry as it was. */
  lemma {:induction false} OverwriteSpec(m: map<string, int>, ks: seq<string>, v: int, k: string)
    ensures k in Overwrite(m, ks, v) <==> k in m || k in ks
    ensures k in ks ==> Overwrite(m, ks, v)[k] == v
    ensures k !in ks && k in m ==> Overwrite(m, ks, v)[k] == m[k]
    decreases |ks|
  {
    if ks != [] {
      OverwriteSpec(m[ks[0] := v], ks[1..], v, k);
      assert k in ks <==> k == ks[0] || k in ks[1..];
    }
  }

  /** The common projections of a stretch of record that holds no hook firing. */
  predicate NoFirings(seg: seq<Action>) {
    Verdicts(seg) == [] && AfterRunJobs(seg) == [] && TickFirings(seg) == []
  }

  lemma {:induction false} NoFiringsAppend(a: seq<Action>, b: seq<Action>)
    requires NoFirings(a) && NoFirings(b)
    ensures NoFirings(a + b)
  {
    FlatMapAppend(a, b, VerdictOf);
    FlatMapAppend(a, b, AfterRunJob);
    FlatMapAppend(a, b, TickFiring);
  }

  /** Actions that no projection above picks out. */
  predicate Inert(a: Action) {
    a.Executed? || a.Spawned? || a.Exhausted? || a.LoggedError? || a.HandledError?
  }

  /** The error lines and handler calls that may follow a body's dispatch. */
  predicate Aftermath(a: Action) {
    a.LoggedError? || a.HandledError?
  }

  lemma {:induction false} AftermathDispatchesNothing(seg: seq<Action>)
    requires forall i :: 0 <= i < |seg| ==> Aftermath(seg[i])
    ensures Dispatched(seg) == []
  {
    if seg != [] {
      AftermathDispatchesNothing(seg[1..]);
    }
  }

  lemma {:induction false} InertProjections(seg: seq<Action>)
    requires forall i :: 0 <= i < |seg| ==> Inert(seg[i])
    ensures NoFirings(seg) && RanJobs(seg) == [] && WrittenKeys(seg) == []
  {
    if seg != [] {
      InertProjections(seg[1..]);
    }
  }

  /** execute appends the call of the body and, if it raised, the logged
      error and the handler's call; it ends the tick only when the error
      handler raises. */
  lemma {:induction false} ExecuteRecord(e: Event, st: St, ctx: Ctx) returns (seg: seq<Action>)
    ensures var s := ExecuteSpec(e, st, ctx).st;
      s.trace == st.trace + seg && s.store == st.store && s.threads == st.threads
    ensures |seg| >= 1 && seg[0] == Executed(e.job, Last(e, st.store))
    ensures forall i :: 0 <= i < |seg| ==> Inert(seg[i])
    ensures forall i :: 1 <= i < |seg| ==> Aftermath(seg[i])
    ensures ctx.o.body(e.block, e.job, Last(e, st.store)).None? ==> seg == [seg[0]]
    ensures ctx.o.body(e.block, e.job, Last(e, st.store)).Some? ==>
      |seg| >= 2 && seg[1] == LoggedError(ctx.o.body(e.block, e.job, Last(e, st.store)).value)
    ensures var out := ctx.o.body(e.block, e.job, Last(e, st.store));
      out.Some? ==> ((ctx.errorHandler.None? ==> |seg| == 2)
                     && (ctx.errorHandler.Some? ==> seg == seg[..2] + [HandledError(ctx.errorHandler.value, out.value)]))
    ensures var out := ctx.o.body(e.block, e.job, Last(e, st.store));
      ExecuteSpec(e, st, ctx).Abort? <==>
        out.Some? && ctx.errorHandler.Some? && ctx.o.onError(ctx.errorHandler.value, out.value).Some?
    ensures ExecuteSpec(e, st, ctx).Abort? ==>
      ctx.errorHandler.Some? && seg[|seg| - 1] == HandledError(ctx.errorHandler.value, ctx.o.body(e.block, e.job, Last(e, st.store)).value)
  {
    var last := Last(e, st.store);
    seg := [Executed(e.job, last)];
    var out := ctx.o.body(e.block, e.job, last);
    if out.Some? {
      seg := seg + [LoggedError(out.value)];
      if ctx.errorHandler.Some? {
        seg := seg + [HandledError(ctx.errorHandler.value, out.value)];
      }
    }
  }

  lemma RunHead(e: Event, v: int)
    ensures var head := [Triggered(e.job), LastWritten(e.key, v)];
      NoFirings(head) && RanJobs(head) == [e.job] && WrittenKeys(head) == [e.key]
  {
    var a, b := Triggered(e.job), LastWritten(e.key, v);
    assert [a, b] == [a] + [b];
    FlatMapOne(a, VerdictOf); FlatMapOne(b, VerdictOf); FlatMapAppend([a], [b], VerdictOf);
    FlatMapOne(a, AfterRunJob); FlatMapOne(b, AfterRunJob); FlatMapAppend([a], [b], AfterRunJob);
    FlatMapOne(a, TickFiring); FlatMapOne(b, TickFiring); FlatMapAppend([a], [b], TickFiring);
    FlatMapOne(a, TriggeredJob); FlatMapOne(b, TriggeredJob); FlatMapAppend([a], [b], TriggeredJob);
    FlatMapOne(a, WrittenKey); FlatMapOne(b, WrittenKey); FlatMapAppend([a], [b], WrittenKey);
  }

  /** Event#run writes `last` = t before anything else happens; inline,
      the body then receives that value; in thread mode it either takes a
      free thread or logs exactly one "Threads exhausted" error and runs
      nothing. */
  lemma {:induction false} RunRecord(e: Event, t: Time, st: St, ctx: Ctx) returns (seg: seq<Action>)
    ensures var s := RunSpec(e, t, st, ctx).st;
      s.trace == st.trace + seg && s.store == st.store[e.key := t.ms]
    ensures |seg| >= 3 && seg[..2] == [Triggered(e.job), LastWritten(e.key, t.ms)]
    ensures forall i :: 2 <= i < |seg| ==> Inert(seg[i])
    ensures DispatchedJob(seg[2]) == [e.job] && forall i :: 3 <= i < |seg| ==> Aftermath(seg[i])
    ensures !e.thread ==> seg[2] == Executed(e.job, Some(t.ms)) && RunSpec(e, t, st, ctx).st.threads == st.threads
    ensures e.thread && st.threads < ctx.maxThreads ==>
      seg[2..] == [Spawned(e.job)] && RunSpec(e, t, st, ctx).st.threads == st.threads + 1
    ensures e.thread && st.threads >= ctx.maxThreads ==>
      seg[2..] == [Exhausted(e.job)] && RunSpec(e, t, st, ctx).st.threads == st.threads
    ensures RunSpec(e, t, st, ctx).Abort? ==> !e.thread && ctx.errorHandler.Some? && seg[|seg| - 1].HandledError?
  {
    var head := [Triggered(e.job), LastWritten(e.key, t.ms)];
    var written := st.(store := st.store[e.key := t.ms], trace := st.trace + head);
    var tail: seq<Action>;
    if e.thread {
      tail := [if written.threads < ctx.maxThreads then Spawned(e.job) else Exhausted(e.job)];
    } else {
      assert Last(e, written.store) == Some(t.ms);
      tail := ExecuteRecord(e, written, ctx);
    }
    seg := head + tail;
    assert seg[..2] == head && seg[2..] == tail;
  }

  /** What a run adds to the record, seen through the projections: one
      triggered job, one written key, one dispatch of its body, no hook
      firing; and the thread count stays within max_threads. */
  lemma {:induction false} RunProjections(e: Event, t: Time, st: St, ctx: Ctx) returns (seg: seq<Action>)
    ensures RunSpec(e, t, st, ctx).st.trace == st.trace + seg
    ensures NoFirings(seg) && RanJobs(seg) == [e.job] && WrittenKeys(seg) == [e.key]
    ensures Dispatched(seg) == [e.job]
    ensures st.threads <= ctx.maxThreads ==> RunSpec(e, t, st, ctx).st.threads <= ctx.maxThreads
    ensures st.threads <= RunSpec(e, t, st, ctx).st.threads
    ensures RunSpec(e, t, st, ctx).Abort? ==> seg[|seg| - 1].HandledError?
  {
    seg := RunRecord(e, t, st, ctx);
    var head, tail := seg[..2], seg[2..];
    assert seg == head + tail;
    RunHead(e, t.ms);
    InertProjections(tail);
    NoFiringsAppend(head, tail);
    FlatMapAppend(head, tail, TriggeredJob);
    FlatMapAppend(head, tail, WrittenKey);
    RunDispatch(e, t.ms, seg);
  }

  /** The dispatch projection of a run's record: only its third action counts. */
  lemma {:induction false} RunDispatch(e: Event, v: int, seg: seq<Action>)
    requires |seg| >= 3 && seg[..2] == [Triggered(e.job), LastWritten(e.key, v)]
    requires DispatchedJob(seg[2]) == [e.job] && forall i :: 3 <= i < |seg| ==> Aftermath(seg[i])
    ensures Dispatched(seg) == [e.job]
  {
    var a, b := Triggered(e.job), LastWritten(e.key, v);
    assert seg == [a] + ([b] + ([seg[2]] + seg[3..]));
    var quiet := seg[3..];
    assert forall i :: 0 <= i < |quiet| ==> Aftermath(quiet[i]) by {
      forall i | 0 <= i < |quiet| ensures Aftermath(quiet[i]) {
        assert quiet[i] == seg[3 + i];
      }
    }
    AftermathDispatchesNothing(quiet);
    FlatMapCons(seg[2], quiet, DispatchedJob);
    FlatMapCons(b, [seg[2]] + quiet, DispatchedJob);
    FlatMapCons(a, [b] + ([seg[2]] + quiet), DispatchedJob);
  }

  /** With one free thread, the first of two thread-mode jobs takes it and
      the second logs "Threads exhausted; skipping myjob2". */
  lemma SecondThreadExhausted(e1: Event, e2: Event, t: Time, st: St, ctx: Ctx)
    requires e1.thread && e2.thread && e2.job == "myjob2"
    requires ctx.maxThreads == 1 && st.threads == 0
    ensures var s1 := RunSpec(e1, t, st, ctx).st;
      var s2 := RunSpec(e2, t, s1, ctx).st;
      s1.threads == 1 && s2.threads == 1
      && s1.trace[|s1.trace| - 1] == Spawned(e1.job)
      && s2.trace[|s2.trace| - 1] == Exhausted("myjob2") && ThreadsExhausted(e2) == "Threads exhausted; skipping myjob2"
  {
  }

  lemma {:induction false} ProjectAppend(a: seq<Action>, b: seq<Action>)
    ensures Verdicts(a + b) == Verdicts(a) + Verdicts(b)
    ensures RanJobs(a + b) == RanJobs(a) + RanJobs(b)
    ensures AfterRunJobs(a + b) == AfterRunJobs(a) + AfterRunJobs(b)
    ensures TickFirings(a + b) == TickFirings(a) + TickFirings(b)
    ensures WrittenKeys(a + b) == WrittenKeys(a) + WrittenKeys(b)
    ensures Dispatched(a + b) == Dispatched(a) + Dispatched(b)
  {
    FlatMapAppend(a, b, DispatchedJob);
    FlatMapAppend(a, b, VerdictOf);
    FlatMapAppend(a, b, TriggeredJob);
    FlatMapAppend(a, b, AfterRunJob);
    FlatMapAppend(a, b, TickFiring);
    FlatMapAppend(a, b, WrittenKey);
  }

  lemma FiredProjections(f: Action)
    requires f.Fired?
    ensures Verdicts([f]) == VerdictOf(f) && RanJobs([f]) == [] && AfterRunJobs([f]) == AfterRunJob(f)
    ensures TickFirings([f]) == TickFiring(f) && WrittenKeys([f]) == []
  {
    FlatMapOne(f, VerdictOf);
    FlatMapOne(f, TriggeredJob);
    FlatMapOne(f, AfterRunJob);
    FlatMapOne(f, TickFiring);
    FlatMapOne(f, WrittenKey);
  }

  lemma OverwriteCons(m: map<string, int>, k: string, ks: seq<string>, v: int)
    ensures Overwrite(m[k := v], ks, v) == Overwrite(m, [k] + ks, v)
  {
    assert ([k] + ks)[1..] == ks;
  }

  lemma VerdictsCons(v: Verdict, vs: seq<Verdict>)
    ensures FlatMap([v] + vs, VerdictJob) == [v.job] + FlatMap(vs, VerdictJob)
    ensures FlatMap([v] + vs, ApprovedJob) == (if v.approved then [v.job] else []) + FlatMap(vs, ApprovedJob)
  {
    FlatMapAppend([v], vs, VerdictJob);
    FlatMapAppend([v], vs, ApprovedJob);
    FlatMapOne(v, VerdictJob);
    FlatMapOne(v, ApprovedJob);
  }

  /** A firing adds exactly its own record and changes nothing else. */
  lemma FireStep(ctx: Ctx, phase: Phase, subject: Option<string>, st: St) returns (f: Action)
    ensures Fire(ctx, phase, subject, st).st == st.(trace := st.trace + [f])
    ensures f == Fired(phase, subject, Invocations(ctx.callbacks, phase, subject, st.trace, ctx.o.hook))
    ensures TriggeredJob(f) == [] && WrittenKey(f) == [] && DispatchedJob(f) == []
    ensures phase == BeforeRun && subject.Some? ==>
      VerdictOf(f) == [Verdict(subject.value, Fire(ctx, phase, subject, st).ok)] && AfterRunJob(f) == [] && TickFiring(f) == []
    ensures phase == AfterRun && subject.Some? ==>
      VerdictOf(f) == [] && AfterRunJob(f) == [subject.value] && TickFiring(f) == []
    ensures phase == BeforeTick || phase == AfterTick ==>
      VerdictOf(f) == [] && AfterRunJob(f) == [] && TickFiring(f) == [phase]
  {
    f := Fired(phase, subject, Invocations(ctx.callbacks, phase, subject, st.trace, ctx.o.hook));
  }

  lemma RunAllVetoStep(due: seq<Event>, t: Time, st: St, ctx: Ctx)
    requires due != [] && !Fire(ctx, BeforeRun, Some(due[0].job), st).ok
    ensures RunAll(due, t, st, ctx) == RunAll(due[1..], t, Fire(ctx, BeforeRun, Some(due[0].job), st).st, ctx)
  {
  }

  lemma RunAllRunStep(due: seq<Event>, t: Time, st: St, ctx: Ctx)
    requires due != [] && Fire(ctx, BeforeRun, Some(due[0].job), st).ok
    ensures var s1 := RunSpec(due[0], t, Fire(ctx, BeforeRun, Some(due[0].job), st).st, ctx);
      s1.Abort? ==> RunAll(due, t, st, ctx) == s1
    ensures var s1 := RunSpec(due[0], t, Fire(ctx, BeforeRun, Some(due[0].job), st).st, ctx);
      s1.Continue? ==> RunAll(due, t, st, ctx) == RunAll(due[1..], t, Fire(ctx, AfterRun, Some(due[0].job), s1.st).st, ctx)
  {
  }

  lemma JobsCons(due: seq<Event>)
    requires due != []
    ensures Jobs(due) == [due[0].job] + Jobs(due[1..])
  {
  }

  /** What the loop of tick over `due` adds to the record when no
      exception ends it: before_run is consulted once for every due event,
      in order; exactly the approved ones run, in that order: their bodies
      and no others are dispatched, their keys and no others are written,
      and after_run follows each of them; the tick phases do not fire;
      every key written holds t; the thread count never passes max_threads. */
  predicate LoopRecord(due: seq<Event>, t: Time, st: St, maxThreads: int, s: St, added: seq<Action>) {
    s.trace == st.trace + added
    && FlatMap(Verdicts(added), VerdictJob) == Jobs(due)
    && RanJobs(added) == FlatMap(Verdicts(added), ApprovedJob)
    && RanJobs(added) == Jobs(Approved(due, Verdicts(added)))
    && Dispatched(added) == RanJobs(added)
    && WrittenKeys(added) == Keys(Approved(due, Verdicts(added)))
    && AfterRunJobs(added) == RanJobs(added)
    && TickFirings(added) == []
    && s.store == Overwrite(st.store, WrittenKeys(added), t.ms)
    && st.threads <= s.threads
    && (st.threads <= maxThreads ==> s.threads <= maxThreads)
  }

  lemma {:induction false} FlatMapCons<A, X>(a: A, r: seq<A>, f: A -> seq<X>)
    ensures FlatMap([a] + r, f) == f(a) + FlatMap(r, f)
  {
    assert ([a] + r)[1..] == r;
  }

  lemma {:induction false} FlatMapAround<A, X>(a: A, s: seq<A>, b: A, r: seq<A>, f: A -> seq<X>)
    ensures FlatMap([a] + s + [b] + r, f) == f(a) + FlatMap(s, f) + f(b) + FlatMap(r, f)
  {
    assert [a] + s + [b] + r == [a] + (s + ([b] + r));
    FlatMapCons(a, s + ([b] + r), f);
    FlatMapAppend(s, [b] + r, f);
    FlatMapCons(b, r, f);
  }

  lemma ApprovedCons(due: seq<Event>, v: Verdict, vs: seq<Verdict>)
    requires due != []
    ensures Approved(due, [v] + vs) == (if v.approved then [due[0]] else []) + Approved(due[1..], vs)
  {
    assert ([v] + vs)[0] == v && ([v] + vs)[1..] == vs;
  }

  /** LoopRecord is kept when a vetoed event is put in front. */
  lemma {:induction false} VetoCons(due: seq<Event>, t: Time, st: St, g: St, maxThreads: int, s: St,
                                    f: Action, rest: seq<Action>)
    requires due != [] && g == st.(trace := st.trace + [f])
    requires VerdictOf(f) == [Verdict(due[0].job, false)] && AfterRunJob(f) == [] && TickFiring(f) == []
    requires TriggeredJob(f) == [] && WrittenKey(f) == [] && DispatchedJob(f) == []
    requires LoopRecord(due[1..], t, g, maxThreads, s, rest)
    ensures LoopRecord(due, t, st, maxThreads, s, [f] + rest)
  {
    FlatMapCons(f, rest, VerdictOf);
    FlatMapCons(f, rest, TriggeredJob);
    FlatMapCons(f, rest, AfterRunJob);
    FlatMapCons(f, rest, TickFiring);
    FlatMapCons(f, rest, WrittenKey);
    FlatMapCons(f, rest, DispatchedJob);
    JobsCons(due);
    VerdictsCons(Verdict(due[0].job, false), Verdicts(rest));
    ApprovedCons(due, Verdict(due[0].job, false), Verdicts(rest));
    assert Verdicts([f] + rest) == [Verdict(due[0].job, false)] + Verdicts(rest);
    assert Approved(due, Verdicts([f] + rest)) == Approved(due[1..], Verdicts(rest));
    assert WrittenKeys([f] + rest) == WrittenKeys(rest);
    assert Dispatched([f] + rest) == Dispatched(rest);
  }

  /** FlatMap over a stretch framed by two actions, from the parts. */
  lemma {:induction false} AroundIs<A, X>(a: A, s: seq<A>, b: A, r: seq<A>, f: A -> seq<X>,
                                          x: seq<X>, y: seq<X>, z: seq<X>)
    requires f(a) == x && FlatMap(s, f) == y && f(b) == z
    ensures FlatMap([a] + s + [b] + r, f) == x + y + z + FlatMap(r, f)
  {
    FlatMapAround(a, s, b, r, f);
  }

  /** Empty parts drop out of a four-part concatenation. */
  lemma EmptyParts<X>(x: seq<X>, r: seq<X>)
    ensures x + [] + [] + r == x + r
    ensures [] + x + [] + r == x + r
    ensures [] + [] + x + r == x + r
    ensures [] + [] + [] + r == r
  {
    var e: seq<X> := [];
    assert x + e + e + r == x + r;
    assert e + x + e + r == x + r;
    assert e + e + x + r == x + r;
    assert e + e + e + r == r;
  }

  /** The projections of the record of one event that ran: its
      before_run firing, its run and its after_run firing. */
  lemma {:induction false} RanProjections(f: Action, seg: seq<Action>, f2: Action, rest: seq<Action>,
                                          job: string, key: string)
    requires VerdictOf(f) == [Verdict(job, true)] && AfterRunJob(f) == [] && TickFiring(f) == []
    requires TriggeredJob(f) == [] && WrittenKey(f) == [] && DispatchedJob(f) == []
    requires VerdictOf(f2) == [] && AfterRunJob(f2) == [job] && TickFiring(f2) == []
    requires TriggeredJob(f2) == [] && WrittenKey(f2) == [] && DispatchedJob(f2) == []
    requires NoFirings(seg) && RanJobs(seg) == [job] && WrittenKeys(seg) == [key] && Dispatched(seg) == [job]
    ensures var added := [f] + seg + [f2] + rest;
      Verdicts(added) == [Verdict(job, true)] + Verdicts(rest)
      && RanJobs(added) == [job] + RanJobs(rest)
      && AfterRunJobs(added) == [job] + AfterRunJobs(rest)
      && TickFirings(added) == TickFirings(rest)
      && WrittenKeys(added) == [key] + WrittenKeys(rest)
      && Dispatched(added) == [job] + Dispatched(rest)
  {
    AroundIs(f, seg, f2, rest, DispatchedJob, [], [job], []);
    EmptyParts([job], Dispatched(rest));
    AroundIs(f, seg, f2, rest, VerdictOf, [Verdict(job, true)], [], []);
    EmptyParts([Verdict(job, true)], Verdicts(rest));
    AroundIs(f, seg, f2, rest, TriggeredJob, [], [job], []);
    EmptyParts([job], RanJobs(rest));
    AroundIs(f, seg, f2, rest, AfterRunJob, [], [], [job]);
    EmptyParts([job], AfterRunJobs(rest));
    AroundIs(f, seg, f2, rest, TickFiring, [], [], []);
    EmptyParts([], TickFirings(rest));
    AroundIs(f, seg, f2, rest, WrittenKey, [], [key], []);
    EmptyParts([key], WrittenKeys(rest));
  }

  /** LoopRecord is kept when an event that ran is put in front, with its
      before_run firing before and its after_run firing after its run. */
  lemma {:induction false} RanCons(due: seq<Event>, t: Time, st: St, s1: St, maxThreads: int, s: St,
                                   f: Action, seg: seq<Action>, f2: Action, rest: seq<Action>)
    requires due != []
    requires var added := [f] + seg + [f2] + rest;
      Verdicts(added) == [Verdict(due[0].job, true)] + Verdicts(rest)
      && RanJobs(added) == [due[0].job] + RanJobs(rest)
      && AfterRunJobs(added) == [due[0].job] + AfterRunJobs(rest)
      && TickFirings(added) == TickFirings(rest)
      && WrittenKeys(added) == [due[0].key] + WrittenKeys(rest)
      && Dispatched(added) == [due[0].job] + Dispatched(rest)
    requires s1.trace == st.trace + [f] + seg && s1.store == st.store[due[0].key := t.ms]
    requires st.threads <= s1.threads && (st.threads <= maxThreads ==> s1.threads <= maxThreads)
    requires LoopRecord(due[1..], t, s1.(trace := s1.trace + [f2]), maxThreads, s, rest)
    ensures LoopRecord(due, t, st, maxThreads, s, [f] + seg + [f2] + rest)
  {
    JobsCons(due);
    VerdictsCons(Verdict(due[0].job, true), Verdicts(rest));
    OverwriteCons(st.store, due[0].key, WrittenKeys(rest), t.ms);
    var added := [f] + seg + [f2] + rest;
    var ran := Approved(due[1..], Verdicts(rest));
    ApprovedCons(due, Verdict(due[0].job, true), Verdicts(rest));
    assert Approved(due, Verdicts(added)) == [due[0]] + ran;
    FlatMapCons(due[0], ran, EventJob);
    FlatMapCons(due[0], ran, EventKey);
  }

  lemma {:induction false} RunAllRecord(due: seq<Event>, t: Time, st: St, ctx: Ctx) returns (added: seq<Action>)
    requires RunAll(due, t, st, ctx).Continue?
    ensures LoopRecord(due, t, st, ctx.maxThreads, RunAll(due, t, st, ctx).st, added)
    decreases |due|, 1
  {
    if due == [] {
      added := [];
    } else if !Fire(ctx, BeforeRun, Some(due[0].job), st).ok {
      added := VetoedRecord(due, t, st, ctx);
    } else {
      added := RanRecord(due, t, st, ctx);
    }
  }

  lemma {:induction false} VetoedRecord(due: seq<Event>, t: Time, st: St, ctx: Ctx) returns (added: seq<Action>)
    requires due != [] && !Fire(ctx, BeforeRun, Some(due[0].job), st).ok
    requires RunAll(due, t, st, ctx).Continue?
    ensures LoopRecord(due, t, st, ctx.maxThreads, RunAll(due, t, st, ctx).st, added)
    decreases |due|, 0
  {
    var g := Fire(ctx, BeforeRun, Some(due[0].job), st).st;
    var f := FireStep(ctx, BeforeRun, Some(due[0].job), st);
    RunAllVetoStep(due, t, st, ctx);
    var rest := RunAllRecord(due[1..], t, g, ctx);
    VetoCons(due, t, st, g, ctx.maxThreads, RunAll(due[1..], t, g, ctx).st, f, rest);
    added := [f] + rest;
  }

  lemma {:induction false} RanRecord(due: seq<Event>, t: Time, st: St, ctx: Ctx) returns (added: seq<Action>)
    requires due != [] && Fire(ctx, BeforeRun, Some(due[0].job), st).ok
    requires RunAll(due, t, st, ctx).Continue?
    ensures LoopRecord(due, t, st, ctx.maxThreads, RunAll(due, t, st, ctx).st, added)
    decreases |due|, 0
  {
    var e := due[0];
    var g := Fire(ctx, BeforeRun, Some(e.job), st).st;
    var f := FireStep(ctx, BeforeRun, Some(e.job), st);
    RunAllRunStep(due, t, st, ctx);
    var seg := RunProjections(e, t, g, ctx);
    var s1 := RunSpec(e, t, g, ctx).st;
    var f2 := FireStep(ctx, AfterRun, Some(e.job), s1);
    var s2 := Fire(ctx, AfterRun, Some(e.job), s1).st;
    var rest := RunAllRecord(due[1..], t, s2, ctx);
    RanProjections(f, seg, f2, rest, e.job, e.key);
    RanCons(due, t, st, s1, ctx.maxThreads, RunAll(due[1..], t, s2, ctx).st, f, seg, f2, rest);
    added := [f] + seg + [f2] + rest;
  }

  /** What the loop of tick adds to the record when the error handler
      raises: the tick phases do not fire, and the last thing recorded is
      the error handler's call. */
  predicate AbortRecord(st: St, s: St, added: seq<Action>) {
    s.trace == st.trace + added && TickFirings(added) == [] && added != [] && added[|added| - 1].HandledError?
  }

  lemma {:induction false} AbortCons(st: St, g: St, s: St, pre: seq<Action>, rest: seq<Action>)
    requires g.trace == st.trace + pre && TickFirings(pre) == []
    requires AbortRecord(g, s, rest)
    ensures AbortRecord(st, s, pre + rest)
  {
    FlatMapAppend(pre, rest, TickFiring);
    assert (pre + rest)[|pre + rest| - 1] == rest[|rest| - 1];
  }

  lemma TraceAround(tr: seq<Action>, f: Action, seg: seq<Action>, f2: Action)
    ensures tr + [f] + seg + [f2] == tr + ([f] + seg + [f2])
  {
  }

  /** A run between a before_run and an after_run firing holds no tick firing. */
  lemma {:induction false} RunQuiet(f: Action, seg: seq<Action>, f2: Action)
    requires TickFiring(f) == [] && TickFirings(seg) == [] && TickFiring(f2) == []
    ensures TickFirings([f] + seg + [f2]) == []
  {
    FlatMapAround(f, seg, f2, [], TickFiring);
    assert [f] + seg + [f2] + [] == [f] + seg + [f2];
  }

  lemma {:induction false} RunAllAbortRecord(due: seq<Event>, t: Time, st: St, ctx: Ctx) returns (added: seq<Action>)
    requires RunAll(due, t, st, ctx).Abort?
    ensures AbortRecord(st, RunAll(due, t, st, ctx).st, added)
    decreases |due|, 2
  {
    if !Fire(ctx, BeforeRun, Some(due[0].job), st).ok {
      added := VetoedAbortRecord(due, t, st, ctx);
    } else {
      added := RanAbortRecord(due, t, st, ctx);
    }
  }

  lemma {:induction false} VetoedAbortRecord(due: seq<Event>, t: Time, st: St, ctx: Ctx) returns (added: seq<Action>)
    requires due != [] && !Fire(ctx, BeforeRun, Some(due[0].job), st).ok
    requires RunAll(due, t, st, ctx).Abort?
    ensures AbortRecord(st, RunAll(due, t, st, ctx).st, added)
    decreases |due|, 0
  {
    var g := Fire(ctx, BeforeRun, Some(due[0].job), st).st;
    var f := FireStep(ctx, BeforeRun, Some(due[0].job), st);
    FlatMapOne(f, TickFiring);
    RunAllVetoStep(due, t, st, ctx);
    var rest := RunAllAbortRecord(due[1..], t, g, ctx);
    AbortCons(st, g, RunAll(due[1..], t, g, ctx).st, [f], rest);
    added := [f] + rest;
  }

  lemma {:induction false} RanAbortRecord(due: seq<Event>, t: Time, st: St, ctx: Ctx) returns (added: seq<Action>)
    requires due != [] && Fire(ctx, BeforeRun, Some(due[0].job), st).ok
    requires RunAll(due, t, st, ctx).Abort?
    ensures AbortRecord(st, RunAll(due, t, st, ctx).st, added)
    decreases |due|, 1
  {
    var e := due[0];
    var g := Fire(ctx, BeforeRun, Some(e.job), st).st;
    var f := FireStep(ctx, BeforeRun, Some(e.job), st);
    FlatMapOne(f, TickFiring);
    RunAllRunStep(due, t, st, ctx);
    var seg := RunProjections(e, t, g, ctx);
    var r := RunSpec(e, t, g, ctx);
    if r.Abort? {
      AbortCons(st, g, r.st, [f], seg);
      added := [f] + seg;
    } else {
      added := AfterRunAbortRecord(due, t, st, ctx, f, seg);
    }
  }

  lemma {:induction false} AfterRunAbortRecord(due: seq<Event>, t: Time, st: St, ctx: Ctx, f: Action, seg: seq<Action>)
    returns (added: seq<Action>)
    requires due != [] && Fire(ctx, BeforeRun, Some(due[0].job), st).ok
    requires Fire(ctx, BeforeRun, Some(due[0].job), st).st == st.(trace := st.trace + [f]) && TickFiring(f) == []
    requires var r := RunSpec(due[0], t, Fire(ctx, BeforeRun, Some(due[0].job), st).st, ctx);
      r.Continue? && r.st.trace == st.trace + [f] + seg && TickFirings(seg) == []
    requires RunAll(due, t, st, ctx).Abort?
    ensures AbortRecord(st, RunAll(due, t, st, ctx).st, added)
    decreases |due|, 0
  {
    var e := due[0];
    var r := RunSpec(e, t, Fire(ctx, BeforeRun, Some(e.job), st).st, ctx);
    RunAllRunStep(due, t, st, ctx);
    var f2 := FireStep(ctx, AfterRun, Some(e.job), r.st);
    var s2 := Fire(ctx, AfterRun, Some(e.job), r.st).st;
    var rest := RunAllAbortRecord(due[1..], t, s2, ctx);
    RunQuiet(f, seg, f2);
    TraceAround(st.trace, f, seg, f2);
    AbortCons(st, s2, RunAll(due[1..], t, s2, ctx).st, [f] + seg + [f2], rest);
    added := [f] + seg + [f2] + rest;
  }

  // ---- The tick ----

  /** tick when before_tick vetoes: after_tick still fires, exactly once;
      nothing runs, no before_run or after_run fires, the store and the
      threads are untouched, and tick returns nil. */
  lemma {:induction false} TickVetoedRecord(events: seq<Event>, ctx: Ctx, t: Time, st: St) returns (added: seq<Action>)
    requires !Fire(ctx, BeforeTick, None, st).ok
    ensures var r := TickSpec(events, ctx, t, st);
      r.result == Vetoed && r.st.trace == st.trace + added
      && r.st.store == st.store && r.st.threads == st.threads
    ensures |added| == 2 && TickFirings(added) == [BeforeTick, AfterTick]
    ensures Verdicts(added) == [] && RanJobs(added) == [] && AfterRunJobs(added) == [] && WrittenKeys(added) == []
    ensures Dispatched(added) == []
  {
    var f := FireStep(ctx, BeforeTick, None, st);
    var f2 := FireStep(ctx, AfterTick, None, Fire(ctx, BeforeTick, None, st).st);
    added := [f] + [f2];
    assert st.trace + [f] + [f2] == st.trace + added;
    TickFiringsOnly(f, f2);
  }

  /** The projections of the two tick firings alone. */
  lemma {:induction false} TickFiringsOnly(f: Action, f2: Action)
    requires VerdictOf(f) == [] && AfterRunJob(f) == [] && TickFiring(f) == [BeforeTick]
    requires TriggeredJob(f) == [] && WrittenKey(f) == [] && DispatchedJob(f) == []
    requires VerdictOf(f2) == [] && AfterRunJob(f2) == [] && TickFiring(f2) == [AfterTick]
    requires TriggeredJob(f2) == [] && WrittenKey(f2) == [] && DispatchedJob(f2) == []
    ensures TickFirings([f] + [f2]) == [BeforeTick, AfterTick]
    ensures Verdicts([f] + [f2]) == [] && RanJobs([f] + [f2]) == [] && AfterRunJobs([f] + [f2]) == []
    ensures WrittenKeys([f] + [f2]) == [] && Dispatched([f] + [f2]) == []
  {
    FlatMapCons(f, [f2], DispatchedJob);
    FlatMapOne(f2, DispatchedJob);
    FlatMapCons(f, [f2], VerdictOf);
    FlatMapCons(f, [f2], TriggeredJob);
    FlatMapCons(f, [f2], AfterRunJob);
    FlatMapCons(f, [f2], TickFiring);
    FlatMapCons(f, [f2], WrittenKey);
    FlatMapOne(f2, VerdictOf);
    FlatMapOne(f2, TriggeredJob);
    FlatMapOne(f2, AfterRunJob);
    FlatMapOne(f2, TickFiring);
    FlatMapOne(f2, WrittenKey);
  }

  /** The record of a tick that returns, from the record of its loop. */
  lemma {:induction false} TickCons(due: seq<Event>, t: Time, st: St, b: St, maxThreads: int, s: St,
                                    f: Action, mid: seq<Action>, f2: Action)
    requires b == st.(trace := st.trace + [f])
    requires VerdictOf(f) == [] && AfterRunJob(f) == [] && TickFiring(f) == [BeforeTick]
    requires TriggeredJob(f) == [] && WrittenKey(f) == [] && DispatchedJob(f) == []
    requires VerdictOf(f2) == [] && AfterRunJob(f2) == [] && TickFiring(f2) == [AfterTick]
    requires TriggeredJob(f2) == [] && WrittenKey(f2) == [] && DispatchedJob(f2) == []
    requires LoopRecord(due, t, b, maxThreads, s, mid)
    ensures var added := [f] + mid + [f2];
      s.(trace := s.trace + [f2]).trace == st.trace + added
      && TickFirings(added) == [BeforeTick, AfterTick]
      && FlatMap(Verdicts(added), VerdictJob) == Jobs(due)
      && RanJobs(added) == FlatMap(Verdicts(added), ApprovedJob)
      && RanJobs(added) == Jobs(Approved(due, Verdicts(added)))
      && Dispatched(added) == RanJobs(added)
      && WrittenKeys(added) == Keys(Approved(due, Verdicts(added)))
      && AfterRunJobs(added) == RanJobs(added)
      && s.store == Overwrite(st.store, WrittenKeys(added), t.ms)
  {
    var added := [f] + mid + [f2];
    assert added == [f] + mid + [f2] + [];
    FlatMapAround(f, mid, f2, [], VerdictOf);
    FlatMapAround(f, mid, f2, [], TriggeredJob);
    FlatMapAround(f, mid, f2, [], AfterRunJob);
    FlatMapAround(f, mid, f2, [], TickFiring);
    FlatMapAround(f, mid, f2, [], WrittenKey);
    FlatMapAround(f, mid, f2, [], DispatchedJob);
    TraceAround(st.trace, f, mid, f2);
    assert Verdicts(added) == Verdicts(mid);
    assert RanJobs(added) == RanJobs(mid);
    assert AfterRunJobs(added) == AfterRunJobs(mid);
    assert WrittenKeys(added) == WrittenKeys(mid);
    assert Dispatched(added) == Dispatched(mid);
  }

  /** tick when before_tick passes and no exception ends it: it returns
      exactly the due events, in registration order; before_tick fired
      first and every handler approved, after_tick fired last; before_run
      was consulted once per due event, in order, even for the events it
      vetoes; exactly the approved events ran, in order, each followed by
      after_run: their bodies and no others were dispatched, their keys and
      no others were written, and every key written holds t. */
  lemma {:induction false} TickReturnedRecord(events: seq<Event>, ctx: Ctx, t: Time, st: St) returns (added: seq<Action>)
    requires TickSpec(events, ctx, t, st).result.Returned?
    ensures var r := TickSpec(events, ctx, t, st);
      r.result == Returned(EventsToRun(events, st.store, t, ctx.o)) && r.st.trace == st.trace + added
    ensures TickFirings(added) == [BeforeTick, AfterTick]
    ensures added[0].Fired? && added[0].phase == BeforeTick && added[0].subject.None? && false !in added[0].answers
    ensures added[|added| - 1].Fired? && added[|added| - 1].phase == AfterTick
    ensures FlatMap(Verdicts(added), VerdictJob) == Jobs(EventsToRun(events, st.store, t, ctx.o))
    ensures RanJobs(added) == FlatMap(Verdicts(added), ApprovedJob)
    ensures var ran := Approved(EventsToRun(events, st.store, t, ctx.o), Verdicts(added));
      RanJobs(added) == Jobs(ran) && Dispatched(added) == Jobs(ran) && WrittenKeys(added) == Keys(ran)
    ensures AfterRunJobs(added) == RanJobs(added)
    ensures TickSpec(events, ctx, t, st).st.store == Overwrite(st.store, WrittenKeys(added), t.ms)
    ensures var r := TickSpec(events, ctx, t, st);
      st.threads <= r.st.threads && (st.threads <= ctx.maxThreads ==> r.st.threads <= ctx.maxThreads)
  {
    var b := Fire(ctx, BeforeTick, None, st).st;
    var f := FireStep(ctx, BeforeTick, None, st);
    var due := EventsToRun(events, st.store, t, ctx.o);
    var mid := RunAllRecord(due, t, b, ctx);
    var s := RunAll(due, t, b, ctx).st;
    var f2 := FireStep(ctx, AfterTick, None, s);
    TickCons(due, t, st, b, ctx.maxThreads, s, f, mid, f2);
    added := [f] + mid + [f2];
  }

  /** The before_run-approved events are some of the due events, in order. */
  lemma {:induction false} ApprovedSubsequence(due: seq<Event>, vs: seq<Verdict>)
    ensures SubsequenceOf(Approved(due, vs), due)
    decreases |due|
  {
    if due != [] && vs != [] {
      ApprovedSubsequence(due[1..], vs[1..]);
      var rest := Approved(due[1..], vs[1..]);
      if vs[0].approved {
        assert Approved(due, vs) == [due[0]] + rest;
        assert ([due[0]] + rest)[1..] == rest;
      } else {
        assert Approved(due, vs) == rest;
      }
    }
  }

  lemma {:induction false} KeysHold(es: seq<Event>, e: Event)
    requires e in es
    ensures e.key in Keys(es)
    decreases |es|
  {
    if es[0] != e {
      KeysHold(es[1..], e);
    }
  }

  /** After a tick that returns, every event that before_run approved reads
      t as its `last`, and an event whose key no approved event has reads
      what it read before: a vetoed event's `last` is untouched. The bodies
      dispatched are exactly the approved events' ones. */
  lemma {:induction false} TickLastWritten(events: seq<Event>, ctx: Ctx, t: Time, st: St)
    returns (added: seq<Action>, ran: seq<Event>)
    requires TickSpec(events, ctx, t, st).result.Returned?
    ensures TickSpec(events, ctx, t, st).st.trace == st.trace + added
    ensures ran == Approved(EventsToRun(events, st.store, t, ctx.o), Verdicts(added))
    ensures SubsequenceOf(ran, EventsToRun(events, st.store, t, ctx.o))
    ensures Dispatched(added) == Jobs(ran)
    ensures forall e :: e in ran ==> Last(e, TickSpec(events, ctx, t, st).st.store) == Some(t.ms)
    ensures forall e: Event :: e.key !in Keys(ran) ==> Last(e, TickSpec(events, ctx, t, st).st.store) == Last(e, st.store)
  {
    added := TickReturnedRecord(events, ctx, t, st);
    var due := EventsToRun(events, st.store, t, ctx.o);
    ran := Approved(due, Verdicts(added));
    ApprovedSubsequence(due, Verdicts(added));
    var after := TickSpec(events, ctx, t, st).st.store;
    forall e | e in ran
      ensures Last(e, after) == Some(t.ms)
    {
      KeysHold(ran, e);
      OverwriteSpec(st.store, WrittenKeys(added), t.ms, e.key);
    }
    forall e: Event | e.key !in Keys(ran)
      ensures Last(e, after) == Last(e, st.store)
    {
      OverwriteSpec(st.store, WrittenKeys(added), t.ms, e.key);
    }
  }

  /** The no-drift scenario on three ticks: with no callbacks and no error
      handler, a plain hourly job that never ran runs at 10:00:00.5, is not
      due at 10:59:59.999, and runs again at 11:00:00.0. */
  lemma HourlyTicksDoNotDrift(e: Event, ctx: Ctx, st: St, z: Zone)
    requires e.period == 3600 && e.at.None? && e.cond.None? && e.key !in st.store
    requires ctx.callbacks == map[] && ctx.errorHandler.None?
    ensures var r1 := TickSpec([e], ctx, Time(36000500, z), st);
      var r2 := TickSpec([e], ctx, Time(39599999, z), r1.st);
      var r3 := TickSpec([e], ctx, Time(39600000, z), r2.st);
      r1.result == Returned([e]) && r2.result == Returned([]) && r3.result == Returned([e])
      && r3.st.store[e.key] == 39600000
  {
    var t1, t2, t3 := Time(36000500, z), Time(39599999, z), Time(39600000, z);
    var s1 := QuietTick(e, ctx, t1, st);
    HourlyJobDoesNotDrift(e, st.store, z);
    var s2 := QuietTick(e, ctx, t2, s1);
    var s3 := QuietTick(e, ctx, t3, s2);
  }

  /** A tick of one plain event with no callbacks and no error handler:
      it runs exactly when its elapsed check passes, and then writes t. */
  lemma QuietTick(e: Event, ctx: Ctx, t: Time, st: St) returns (s: St)
    requires e.at.None? && e.cond.None?
    requires ctx.callbacks == map[] && ctx.errorHandler.None?
    ensures s == TickSpec([e], ctx, t, st).st
    ensures var ready := ElapsedReady(e, st.store, t);
      TickSpec([e], ctx, t, st).result == Returned(if ready then [e] else [])
      && s.store == if ready then st.store[e.key := t.ms] else st.store
  {
    var b := Fire(ctx, BeforeTick, None, st);
    assert b.ok && b.st.store == st.store;
    var due := EventsToRun([e], st.store, t, ctx.o);
    assert [e][1..] == [];
    if ElapsedReady(e, st.store, t) {
      assert due == [e];
      var g := Fire(ctx, BeforeRun, Some(e.job), b.st);
      assert g.ok;
      RunAllRunStep(due, t, b.st, ctx);
    } else {
      assert due == [];
    }
    s := TickSpec([e], ctx, t, st).st;
  }

  /** tick when the error handler raises: the exception leaves tick, so
      after_tick does not fire, and the handler's call is the last thing
      recorded. */
  lemma {:induction false} TickRaisedRecord(events: seq<Event>, ctx: Ctx, t: Time, st: St) returns (added: seq<Action>)
    requires TickSpec(events, ctx, t, st).result.Raised?
    ensures TickSpec(events, ctx, t, st).st.trace == st.trace + added
    ensures TickFirings(added) == [BeforeTick] && added[|added| - 1].HandledError?
  {
    var b := Fire(ctx, BeforeTick, None, st).st;
    var f := FireStep(ctx, BeforeTick, None, st);
    var due := EventsToRun(events, st.store, t, ctx.o);
    var rest := RunAllAbortRecord(due, t, b, ctx);
    TickAbortCons(st, b, RunAll(due, t, b, ctx).st, f, rest);
    added := [f] + rest;
  }

  lemma {:induction false} TickAbortCons(st: St, b: St, s: St, f: Action, rest: seq<Action>)
    requires b.trace == st.trace + [f] && TickFiring(f) == [BeforeTick]
    requires AbortRecord(b, s, rest)
    ensures s.trace == st.trace + ([f] + rest)
    ensures TickFirings([f] + rest) == [BeforeTick] && ([f] + rest)[|[f] + rest| - 1].HandledError?
  {
    FlatMapCons(f, rest, TickFiring);
    assert ([f] + rest)[|[f] + rest| - 1] == rest[|rest| - 1];
  }
}
