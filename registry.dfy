/** Registration in Tickwork::Manager as functions on the list of events
    and the callback registry: `handler`, `on`, `register` with its
    duplicate-name guard, and `every` with its expansion of a list of :at
    times. The Manager class is proved to update its fields as these say. */
module TickworkRegistry {
  import opened Tickwork
  import opened TickworkEvent
  import opened TickworkDispatch

  /** The names (to_s) of the events, in registration order. */
  function Names(events: seq<Event>): (r: seq<string>)
    ensures |r| == |events|
    ensures forall i :: 0 <= i < |events| ==> r[i] == ToS(events[i])
  {
    if events == [] then [] else [ToS(events[0])] + Names(events[1..])
  }

  /** What the manager keeps true of its events: every name is a name an
      event accepts, and no two events share a name. */
  predicate JobsValid(events: seq<Event>, managerKey: string) {
    (forall i :: 0 <= i < |events| ==> events[i].job != "" && events[i].job != managerKey)
    && (forall i, j :: 0 <= i < j < |events| ==> events[i].job != events[j].job)
  }

  /** guard_duplicate_events: DuplicateJobName exactly when an event of the
      same name is already registered. */
  function GuardDuplicateEvents(events: seq<Event>, e: Event): (r: Option<Error>)
    ensures r.Some? <==> exists i :: 0 <= i < |events| && events[i].job == e.job
    ensures r.Some? ==> r.value == DuplicateJobName
  {
    if ToS(e) in Names(events) then Some(DuplicateJobName) else None
  }

  /** `block || handler`: the block when one is given, else the default
      handler, whose absence raises NoHandlerDefined. */
  function HandlerFor(block: Option<CallableId>, handler: Option<CallableId>): (r: Result<CallableId>)
    ensures r.Ok? <==> block.Some? || handler.Some?
    ensures r.Ok? ==> r.value == if block.Some? then block.value else handler.value
    ensures r.Err? ==> r.error == NoHandlerDefined
  {
    if block.Some? then Ok(block.value)
    else if handler.Some? then Ok(handler.value)
    else Err(NoHandlerDefined)
  }

  /** What a registration reads from the manager besides its events. */
  datatype Registrar = Registrar(handler: Option<CallableId>, config: Config, managerKey: string,
                                 atParses: string -> bool)

  /** register: resolve the body, build the event, refuse a duplicate name.
      The checks come in that order, and the first failure is the error. */
  function Registration(events: seq<Event>, reg: Registrar, period: int, job: Job,
                        block: Option<CallableId>, opts: Options, at: Option<string>): (r: Result<Event>)
    ensures HandlerFor(block, reg.handler).Err? ==> r == Err(NoHandlerDefined)
    ensures HandlerFor(block, reg.handler).Ok? ==>
      var made := NewEvent(period, job, HandlerFor(block, reg.handler).value, at, opts, reg.config, reg.managerKey, reg.atParses);
      (made.Err? ==> r == Err(made.error))
      && (made.Ok? ==> r == if GuardDuplicateEvents(events, made.value).Some? then Err(DuplicateJobName) else made)
    ensures r.Ok? ==> forall i :: 0 <= i < |events| ==> events[i].job != r.value.job
    ensures r.Ok? ==> r.value.job == job.name && r.value.job != "" && r.value.job != reg.managerKey
    ensures r.Ok? ==> r.value.at == at && r.value.period == period
  {
    match HandlerFor(block, reg.handler)
    case Err(err) => Err(err)
    case Ok(body) =>
      match NewEvent(period, job, body, at, opts, reg.config, reg.managerKey, reg.atParses)
      case Err(err) => Err(err)
      case Ok(e) => if GuardDuplicateEvents(events, e).Some? then Err(DuplicateJobName) else Ok(e)
  }

  /** The list after a registration: the new event at the end, or the list
      unchanged when the registration failed. */
  function Added(events: seq<Event>, r: Result<Event>): seq<Event> {
    if r.Ok? then events + [r.value] else events
  }

  /** A registration keeps the names valid and distinct. */
  lemma {:induction false} RegistrationKeepsValid(events: seq<Event>, reg: Registrar, period: int, job: Job,
                                                  block: Option<CallableId>, opts: Options, at: Option<string>)
    requires JobsValid(events, reg.managerKey)
    ensures JobsValid(Added(events, Registration(events, reg, period, job, block, opts, at)), reg.managerKey)
  {
    var r := Registration(events, reg, period, job, block, opts, at);
    if r.Ok? {
      var ev := events + [r.value];
      forall i, j | 0 <= i < j < |ev|
        ensures ev[i].job != ev[j].job
      {
        if j == |events| {
          assert ev[j] == r.value;
        }
      }
    }
  }

  /** Registering a name that is already taken fails with DuplicateJobName
      whatever else the registration is given, once a body is at hand and
      the event itself can be built. */
  lemma {:induction false} DuplicateRejected(events: seq<Event>, reg: Registrar, period: int, job: Job,
                                             block: Option<CallableId>, opts: Options, at: Option<string>, k: nat)
    requires k < |events| && job == Name(events[k].job)
    requires HandlerFor(block, reg.handler).Ok?
    requires NewEvent(period, job, HandlerFor(block, reg.handler).value, at, opts, reg.config, reg.managerKey, reg.atParses).Ok?
    ensures Registration(events, reg, period, job, block, opts, at) == Err(DuplicateJobName)
    ensures Added(events, Registration(events, reg, period, job, block, opts, at)) == events
  {
    var made := NewEvent(period, job, HandlerFor(block, reg.handler).value, at, opts, reg.config, reg.managerKey, reg.atParses);
    assert events[k].job == made.value.job;
  }

  /** The registry of callbacks after `on`: the four phases are accepted,
      and the block is appended to its phase's list; any other name is
      an error. */
  function AddCallback(callbacks: map<Phase, seq<CallableId>>, name: string, block: CallableId)
    : (r: Result<map<Phase, seq<CallableId>>>)
    ensures r.Ok? <==> name in {"before_tick", "after_tick", "before_run", "after_run"}
    ensures r.Err? ==> r.error == UnsupportedCallback(name)
    ensures r.Ok? ==> forall p: Phase ::
      HandlersOf(r.value, p) == if PhaseName(p) == name then HandlersOf(callbacks, p) + [block] else HandlersOf(callbacks, p)
  {
    match PhaseNamed(name)
    case None => Err(UnsupportedCallback(name))
    case Some(p) => Ok(callbacks[p := HandlersOf(callbacks, p) + [block]])
  }

  /** The :at option of `every`: one value (or none), or a list of times
      (a value that responds to `each`). */
  datatype AtOption = AtSingle(at: Option<string>) | AtEach(ats: seq<string>)

  /** The events after a sequence of registrations, and the error that
      stopped it, if any. */
  datatype Outcome = Outcome(events: seq<Event>, error: Option<Error>)

  /** `job + '_' + at`. */
  function AtJobName(job: string, at: string): string {
    job + "_" + at
  }

  /** The loop of every_with_multiple_times over any registration step:
      each entry is registered after the events before it, and the first
      error stops the loop. */
  function RegisterAll(events: seq<Event>, ats: seq<string>, step: (seq<Event>, string) -> Result<Event>): (r: Outcome)
    decreases |ats|
    ensures |events| <= |r.events| <= |events| + |ats|
    ensures r.error.None? <==> |r.events| == |events| + |ats|
  {
    if ats == [] then Outcome(events, None)
    else
      match step(events, ats[0])
      case Err(err) => Outcome(events, Some(err))
      case Ok(e) => RegisterAll(events + [e], ats[1..], step)
  }

  /** The registration of one entry of the list: the job `job_<at>` with
      that single :at. */
  function EntryStep(reg: Registrar, period: int, job: string, block: Option<CallableId>,
                     opts: Options): (seq<Event>, string) -> Result<Event> {
    (evs: seq<Event>, at: string) => Registration(evs, reg, period, Name(AtJobName(job, at)), block, opts, Some(at))
  }

  /** every_with_multiple_times: one registration per entry of the list,
      in order, stopping at the first error. */
  function RegisterEach(events: seq<Event>, reg: Registrar, period: int, job: string,
                        block: Option<CallableId>, opts: Options, ats: seq<string>): (r: Outcome)
    ensures |events| <= |r.events| <= |events| + |ats|
    ensures r.error.None? <==> |r.events| == |events| + |ats|
  {
    RegisterAll(events, ats, EntryStep(reg, period, job, block, opts))
  }

  /** every: a list of times goes through RegisterEach, anything else is
      one registration. A job that is not a string cannot be joined with
      '_' and an entry, so a non-empty list then fails before
      registering anything. */
  function Every(events: seq<Event>, reg: Registrar, period: int, job: Job,
                 block: Option<CallableId>, opts: Options, at: AtOption): (r: Outcome)
    ensures at.AtSingle? ==> var one := Registration(events, reg, period, job, block, opts, at.at);
      r == Outcome(Added(events, one), if one.Err? then Some(one.error) else None)
    ensures at.AtEach? && at.ats == [] ==> r == Outcome(events, None)
    ensures at.AtEach? && at.ats != [] && job.NotString? ==> r == Outcome(events, Some(ConcatFailed))
    ensures at.AtEach? && at.ats != [] && job.Name? ==>
      r == RegisterEach(events, reg, period, job.name, block, opts, at.ats)
  {
    match at
    case AtSingle(a) =>
      var one := Registration(events, reg, period, job, block, opts, a);
      Outcome(Added(events, one), if one.Err? then Some(one.error) else None)
    case AtEach(ats) =>
      if ats == [] then Outcome(events, None)
      else if job.NotString? then Outcome(events, Some(ConcatFailed))
      else RegisterEach(events, reg, period, job.name, block, opts, ats)
  }

  lemma PrefixCons(events: seq<Event>, e: Event, longer: seq<Event>)
    requires |events| + 1 <= |longer| && longer[..|events| + 1] == events + [e]
    ensures longer[..|events|] == events && longer[|events|] == e
  {
    assert longer[..|events|] == longer[..|events| + 1][..|events|];
  }

  /** The loop only appends, at most one event per entry; it appends all of
      them exactly when no step fails, and otherwise the error is the one
      the first unregistered entry gives. */
  lemma {:induction false} RegisterAllAppends(events: seq<Event>, ats: seq<string>,
                                              step: (seq<Event>, string) -> Result<Event>)
    ensures var o := RegisterAll(events, ats, step);
      |events| <= |o.events| <= |events| + |ats| && o.events[..|events|] == events
    ensures var o := RegisterAll(events, ats, step);
      o.error.None? <==> |o.events| == |events| + |ats|
    ensures var o := RegisterAll(events, ats, step);
      o.error.Some? ==> var k := |o.events| - |events|; step(o.events, ats[k]) == Err(o.error.value)
    decreases |ats|
  {
    if ats != [] {
      var r := step(events, ats[0]);
      if r.Ok? {
        var ev := events + [r.value];
        RegisterAllAppends(ev, ats[1..], step);
        var o := RegisterAll(ev, ats[1..], step);
        PrefixCons(events, r.value, o.events);
        if o.error.Some? {
          assert ats[|o.events| - |events|] == ats[1..][|o.events| - |ev|];
        }
      }
    }
  }

  /** Appended event i is what the step gives for entry i after the events
      before it. */
  lemma {:induction false} RegisterAllEntry(events: seq<Event>, ats: seq<string>,
                                            step: (seq<Event>, string) -> Result<Event>, i: int)
    requires |events| <= i < |RegisterAll(events, ats, step).events|
    ensures var o := RegisterAll(events, ats, step);
      i - |events| < |ats| && step(o.events[..i], ats[i - |events|]) == Ok(o.events[i])
    decreases |ats|
  {
    var r := step(events, ats[0]);
    var ev := events + [r.value];
    RegisterAllAppends(ev, ats[1..], step);
    var o := RegisterAll(ev, ats[1..], step);
    PrefixCons(events, r.value, o.events);
    if i > |events| {
      RegisterAllEntry(ev, ats[1..], step, i);
      assert ats[i - |events|] == ats[1..][i - |ev|];
    }
  }

  /** RegisterEach only appends: the registered events stay in front, at
      most one event is added per entry, all of them exactly when no error
      stops the loop, and otherwise the error is the one the first
      unregistered entry gives. */
  lemma RegisterEachAppends(events: seq<Event>, reg: Registrar, period: int, job: string,
                            block: Option<CallableId>, opts: Options, ats: seq<string>)
    ensures var o := RegisterEach(events, reg, period, job, block, opts, ats);
      |events| <= |o.events| <= |events| + |ats| && o.events[..|events|] == events
    ensures var o := RegisterEach(events, reg, period, job, block, opts, ats);
      o.error.None? <==> |o.events| == |events| + |ats|
    ensures var o := RegisterEach(events, reg, period, job, block, opts, ats);
      o.error.Some? ==> var k := |o.events| - |events|;
        Registration(o.events, reg, period, Name(AtJobName(job, ats[k])), block, opts, Some(ats[k]))
          == Err(o.error.value)
  {
    var step := EntryStep(reg, period, job, block, opts);
    RegisterAllAppends(events, ats, step);
    var o := RegisterAll(events, ats, step);
    assert RegisterEach(events, reg, period, job, block, opts, ats) == o;
    if o.error.Some? {
      var k := |o.events| - |events|;
      assert step(o.events, ats[k]) == Registration(o.events, reg, period, Name(AtJobName(job, ats[k])), block, opts, Some(ats[k]));
    }
  }

  /** The appended event number i is the event registered for the name
      `job_<ats[i]>` with :at ats[i], given the events before it. */
  lemma RegisterEachEntries(events: seq<Event>, reg: Registrar, period: int, job: string,
                            block: Option<CallableId>, opts: Options, ats: seq<string>)
    ensures var o := RegisterEach(events, reg, period, job, block, opts, ats);
      forall i :: |events| <= i < |o.events| ==>
        i - |events| < |ats|
        && Registration(o.events[..i], reg, period, Name(AtJobName(job, ats[i - |events|])), block, opts,
                        Some(ats[i - |events|])) == Ok(o.events[i])
  {
    var step := EntryStep(reg, period, job, block, opts);
    RegisterAllAppends(events, ats, step);
    var o := RegisterEach(events, reg, period, job, block, opts, ats);
    forall i | |events| <= i < |o.events|
      ensures i - |events| < |ats|
      ensures Registration(o.events[..i], reg, period, Name(AtJobName(job, ats[i - |events|])), block, opts,
                           Some(ats[i - |events|])) == Ok(o.events[i])
    {
      RegisterAllEntry(events, ats, step, i);
    }
  }

  /** The names and times of the appended events: entry i of the list
      gives the event named `job_<ats[i]>` whose :at is ats[i]. */
  lemma {:induction false} RegisterEachNames(events: seq<Event>, reg: Registrar, period: int, job: string,
                                             block: Option<CallableId>, opts: Options, ats: seq<string>)
    ensures var o := RegisterEach(events, reg, period, job, block, opts, ats);
      forall i :: |events| <= i < |o.events| ==>
        i - |events| < |ats| && o.events[i].job == AtJobName(job, ats[i - |events|])
        && o.events[i].at == Some(ats[i - |events|]) && o.events[i].period == period
  {
    RegisterEachAppends(events, reg, period, job, block, opts, ats);
    RegisterEachEntries(events, reg, period, job, block, opts, ats);
    var o := RegisterEach(events, reg, period, job, block, opts, ats);
    forall i | |events| <= i < |o.events|
      ensures i - |events| < |ats| && o.events[i].job == AtJobName(job, ats[i - |events|])
      ensures o.events[i].at == Some(ats[i - |events|]) && o.events[i].period == period
    {
      var at := ats[i - |events|];
      assert Registration(o.events[..i], reg, period, Name(AtJobName(job, at)), block, opts, Some(at)) == Ok(o.events[i]);
    }
  }

  /** RegisterEach keeps the names valid and distinct. */
  lemma {:induction false} RegisterEachKeepsValid(events: seq<Event>, reg: Registrar, period: int, job: string,
                                                  block: Option<CallableId>, opts: Options, ats: seq<string>)
    requires JobsValid(events, reg.managerKey)
    ensures JobsValid(RegisterEach(events, reg, period, job, block, opts, ats).events, reg.managerKey)
    decreases |ats|
  {
    if ats != [] {
      var r := Registration(events, reg, period, Name(AtJobName(job, ats[0])), block, opts, Some(ats[0]));
      if r.Ok? {
        RegistrationKeepsValid(events, reg, period, Name(AtJobName(job, ats[0])), block, opts, Some(ats[0]));
        RegisterEachKeepsValid(events + [r.value], reg, period, job, block, opts, ats[1..]);
      }
    }
  }

  /** A list that names the same time twice registers the first and fails
      on the second with DuplicateJobName, the first staying registered. */
  lemma RepeatedAtRejected(events: seq<Event>, reg: Registrar, period: int, job: string,
                           block: Option<CallableId>, opts: Options, at: string)
    requires Registration(events, reg, period, Name(AtJobName(job, at)), block, opts, Some(at)).Ok?
    ensures var e := Registration(events, reg, period, Name(AtJobName(job, at)), block, opts, Some(at)).value;
      RegisterEach(events, reg, period, job, block, opts, [at, at]) == Outcome(events + [e], Some(DuplicateJobName))
  {
    var e := Registration(events, reg, period, Name(AtJobName(job, at)), block, opts, Some(at)).value;
    var ev := events + [e];
    assert [at, at][1..] == [at] && [at][1..] == [];
    var made := NewEvent(period, Name(AtJobName(job, at)), HandlerFor(block, reg.handler).value, Some(at), opts,
                         reg.config, reg.managerKey, reg.atParses);
    assert ev[|events|].job == made.value.job;
    var step := EntryStep(reg, period, job, block, opts);
    assert step(events, at) == Ok(e);
    assert step(ev, at) == Err(DuplicateJobName);
    assert RegisterAll(events, [at, at], step) == RegisterAll(ev, [at], step);
  }
}
