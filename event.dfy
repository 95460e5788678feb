/** One registered job (Tickwork::Event): how it is built from the
    arguments of `every` and when it is due. `last` lives in the manager's
    data store, modelled as a map from store keys to the milliseconds of the
    time last written, so an event is a value. The source's writers `job=`
    and `data_store_key=` are not modelled: an event here keeps the name
    and key it was built with. */
module TickworkEvent {
  import opened Tickwork

  /** The job argument: a Ruby string, or any other value. */
  datatype Job = Name(name: string) | NotString

  /** A value given as the `:if` option: a callable, the value `false`,
      or another value that does not respond to `call` (shown: its `to_s`). */
  datatype IfValue = Callable(id: CallableId) | FalseValue | Uncallable(shown: string)

  /** The options an event reads besides `:at`; None stands for a key that
      is absent from the options hash. */
  datatype Options = Options(
    cond: Option<IfValue>,
    thread: Option<bool>,
    tz: Option<Zone>,
    namespace: Option<string>)

  datatype Event = Event(
    period: int,            // seconds
    job: string,
    at: Option<string>,     // the parsed :at, named by its text
    block: CallableId,      // the job body
    cond: Option<CallableId>,
    thread: bool,
    timezone: Zone,
    key: string)            // the data store key

  const DefaultNamespace: string := "_tickwork_"

  const IfMessageHead: string := ":if expects a callable object, but "
  const IfMessageTail: string := " does not respond to call"

  /** The message as written: single quotes leave `#{if_option}` in the text. */
  const IfMessageAsWritten: string := ":if expects a callable object, but #{if_option} does not respond to call"

  /** The text of a value that is not callable, as Ruby's `to_s` shows it. */
  function Shown(v: IfValue): string
    requires !v.Callable?
  {
    if v.FalseValue? then "false" else v.shown
  }

  /** The ArgumentError message as the message was evidently meant to read,
      with the offending value interpolated. */
  function IfErrorMessage(v: IfValue): (m: string)
    requires !v.Callable?
    ensures |m| == |IfMessageHead| + |Shown(v)| + |IfMessageTail|
    ensures m[|IfMessageHead|..|IfMessageHead| + |Shown(v)|] == Shown(v)
  {
    IfMessageHead + Shown(v) + IfMessageTail
  }

  /** validate_if_option as written: only a truthy value is checked, and the
      message is in single quotes, so `#{if_option}` is not interpolated. */
  function ValidateIfAsWritten(v: Option<IfValue>): (r: Option<Error>)
    ensures r.None? <==> (v.None? || v.value.Callable? || v.value.FalseValue?)
    ensures r.Some? ==> r.value == ArgumentError(IfMessageAsWritten)
  {
    if v.Some? && !v.value.FalseValue? && !v.value.Callable? then
      Some(ArgumentError(IfMessageAsWritten))
    else
      None
  }

  /** `:if => false` passes the check as written although `false` does not
      respond to `call`; run_now? would later call it. */
  lemma FalseIfPassesAsWritten()
    ensures ValidateIfAsWritten(Some(FalseValue)).None? && !FalseValue.Callable?
  {
  }

  /** The message as written is the same whatever the offending value is. */
  lemma IfMessageAsWrittenIgnoresValue(s1: string, s2: string)
    ensures ValidateIfAsWritten(Some(Uncallable(s1))) == ValidateIfAsWritten(Some(Uncallable(s2)))
  {
  }

  /** validate_if_option as intended: every present value that is not
      callable is rejected, and the message names it. */
  function ValidateIf(v: Option<IfValue>): (r: Option<Error>)
    ensures r.None? <==> (v.None? || v.value.Callable?)
    ensures r.Some? ==> r.value == ArgumentError(IfErrorMessage(v.value))
  {
    if v.Some? && !v.value.Callable? then Some(ArgumentError(IfErrorMessage(v.value))) else None
  }

  /** A job name the event accepts: a non-empty string other than the
      manager's reserved key. */
  predicate ValidJobName(job: Job, managerKey: string) {
    job.Name? && job.name != "" && job.name != managerKey
  }

  /** to_s: an event is shown as its job name. */
  function ToS(e: Event): (r: string)
    ensures r == e.job
  {
    e.job
  }

  /** Event.new: the :if option is checked first, then the job name, then
      the :at value is parsed; the thread mode and the zone are the options'
      values when the keys are present, else the manager's; the store key
      is the namespace (default '_tickwork_') followed by the job name. */
  function NewEvent(period: int, job: Job, block: CallableId, at: Option<string>,
                    opts: Options, config: Config, managerKey: string,
                    atParses: string -> bool): (r: Result<Event>)
    ensures ValidateIf(opts.cond).Some? ==> r == Err(ValidateIf(opts.cond).value)
    ensures ValidateIf(opts.cond).None? && !ValidJobName(job, managerKey) ==> r == Err(IllegalJobName)
    ensures ValidateIf(opts.cond).None? && ValidJobName(job, managerKey) && at.Some? && !atParses(at.value) ==>
              r == Err(FailedToParse(at.value))
    ensures r.Ok? <==> ValidateIf(opts.cond).None? && ValidJobName(job, managerKey) && (at.None? || atParses(at.value))
    ensures r.Ok? ==> ToS(r.value) == job.name && r.value.job != "" && r.value.job != managerKey
    ensures r.Ok? ==> r.value.key == opts.namespace.GetOr(DefaultNamespace) + job.name
    ensures r.Ok? ==> r.value.thread == (if opts.thread.Some? then opts.thread.value else config.thread)
    ensures r.Ok? ==> r.value.timezone == (if opts.tz.Some? then opts.tz.value else config.tz)
    ensures r.Ok? ==> r.value.period == period && r.value.block == block && r.value.at == at
    ensures r.Ok? ==> (r.value.cond.Some? <==> opts.cond.Some?)
    ensures r.Ok? && opts.cond.Some? ==> opts.cond.value == Callable(r.value.cond.value)
  {
    if ValidateIf(opts.cond).Some? then Err(ValidateIf(opts.cond).value)
    else if !ValidJobName(job, managerKey) then Err(IllegalJobName)
    else if at.Some? && !atParses(at.value) then Err(FailedToParse(at.value))
    else
      var cond := if opts.cond.Some? then Some(opts.cond.value.id) else None;
      Ok(Event(period, job.name, at, block, cond,
               opts.thread.GetOr(config.thread), opts.tz.GetOr(config.tz),
               opts.namespace.GetOr(DefaultNamespace) + job.name))
  }

  /** With the default configuration, an event whose options name no
      thread mode and no zone runs inline and in no zone. */
  lemma DefaultConfigurationEvent(period: int, job: Job, block: CallableId, at: Option<string>,
                                  opts: Options, managerKey: string, atParses: string -> bool)
    requires opts.thread.None? && opts.tz.None?
    ensures var r := NewEvent(period, job, block, at, opts, DefaultConfiguration, managerKey, atParses);
      r.Ok? ==> !r.value.thread && r.value.timezone == NoZone
  {
  }

  /** `last`: the value stored under the event's key, if any. */
  function Last(e: Event, store: map<string, int>): (r: Option<int>)
    ensures r.Some? <==> e.key in store
    ensures r.Some? ==> r.value == store[e.key]
  {
    if e.key in store then Some(store[e.key]) else None
  }

  /** `last = v` then `last` reads v; an event with another key sees no
      change. */
  lemma LastAfterWrite(e: Event, other: Event, store: map<string, int>, v: int)
    ensures Last(e, store[e.key := v]) == Some(v)
    ensures other.key != e.key ==> Last(other, store[e.key := v]) == Last(other, store)
  {
  }

  /** convert_timezone: ActiveSupport's in_time_zone keeps the instant and
      changes only the zone it is seen in. */
  function ConvertTimezone(tz: Zone, t: Time): (r: Time)
    ensures r.ms == t.ms
    ensures tz.Named? ==> r.zone == tz
    ensures tz.NoZone? ==> r == t
  {
    if tz.Named? then Time(t.ms, tz) else t
  }

  /** elapsed_ready: no last run, or at least `period` whole seconds
      between the whole-second parts of the two times; that is, t has
      reached the start of the whole second of `last` plus the period. */
  function ElapsedReady(e: Event, store: map<string, int>, t: Time): (r: bool)
    ensures Last(e, store).None? ==> r
    ensures Last(e, store).Some? ==> (r <==> t.ms >= (Last(e, store).value / 1000 + e.period) * 1000)
  {
    var last := Last(e, store);
    if last.None? then true
    else
      DivBoundary(t.ms, last.value / 1000 + e.period);
      t.ms / 1000 - last.value / 1000 >= e.period
  }

  /** run_now?: elapsed, :at and :if checks, all on the zone-converted time. */
  function RunNow(e: Event, store: map<string, int>, t: Time,
                  cond: (CallableId, Time) -> bool, atReady: (string, Time) -> bool): (r: bool)
    ensures r ==> ElapsedReady(e, store, t)
    ensures e.at.None? && e.cond.None? ==> (r <==> ElapsedReady(e, store, t))
    ensures Last(e, store).None? && e.at.None? && e.cond.None? ==> r
  {
    var t' := ConvertTimezone(e.timezone, t);
    ElapsedReady(e, store, t')
      && (e.at.None? || atReady(e.at.value, t'))
      && (e.cond.None? || cond(e.cond.value, t'))
  }

  lemma DivBoundary(x: int, k: int)
    ensures x / 1000 >= k <==> x >= k * 1000
  {
    assert x == 1000 * (x / 1000) + x % 1000;
    if x / 1000 >= k {
      assert x >= 1000 * k;
    } else {
      assert x / 1000 <= k - 1;
      assert x < 1000 * k;
    }
  }

  /** No drift: once last is written at T, the event is due at T' exactly
      when T' has reached the start of the whole second of T plus the
      period; the sub-second part of T does not move the boundary. */
  lemma {:induction false} DueBoundary(e: Event, store: map<string, int>, t: Time, t': Time)
    ensures ElapsedReady(e, store[e.key := t.ms], t') <==> t'.ms >= (t.ms / 1000 + e.period) * 1000
  {
    DivBoundary(t'.ms, t.ms / 1000 + e.period);
  }

  /** Two runs within the same whole second give the same due times. */
  lemma {:induction false} SameSecondSameSchedule(e: Event, store: map<string, int>, t1: Time, t2: Time, t': Time)
    requires t1.ms / 1000 == t2.ms / 1000
    ensures ElapsedReady(e, store[e.key := t1.ms], t') == ElapsedReady(e, store[e.key := t2.ms], t')
  {
    DueBoundary(e, store, t1, t');
    DueBoundary(e, store, t2, t');
  }

  /** An hourly job run at 10:00:00.5 is not due at 10:59:59.999 and is
      due at 11:00:00.0 (times in ms after midnight). */
  lemma HourlyJobDoesNotDrift(e: Event, store: map<string, int>, z: Zone)
    requires e.period == 3600
    ensures var s := store[e.key := 36000500];
      !ElapsedReady(e, s, Time(39599999, z)) && ElapsedReady(e, s, Time(39600000, z))
  {
  }

  /** A job whose last run was written at t is not due at any t' less than
      one period later in whole seconds, whatever its :at and :if say. */
  lemma {:induction false} JustRanNotDue(e: Event, store: map<string, int>, t: Time, t': Time,
                                         cond: (CallableId, Time) -> bool, atReady: (string, Time) -> bool)
    requires t'.ms < (t.ms / 1000 + e.period) * 1000
    ensures !RunNow(e, store[e.key := t.ms], t', cond, atReady)
  {
    DueBoundary(e, store, t, t');
  }
}
