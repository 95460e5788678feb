# Tickwork scheduler core in Dafny

This project models the core of tickwork, a Ruby job scheduler that has no
clock of its own. The application registers jobs with `every(period, job,
options) { ... }`, and the scheduler decides, one `tick(t)` at a time, which
jobs are due and runs them. How long ago each job last ran is kept in a
pluggable data store. The model covers two classes:

- `Tickwork::Manager` is the registry of events, callbacks and handlers, plus
  the per-tick hook pipeline (`before_tick`, `before_run`, `after_run`,
  `after_tick`).
- `Tickwork::Event` is one job: its validation, store key, thread mode and
  time zone; the due test `run_now?` with its whole-second elapsed check;
  and `run`/`execute`, which write `last` and call the body.

Modules:

- `Tickwork` (tickwork.dfy): shared values.
  - Options and results.
  - The errors the Ruby code raises.
  - Times: integer milliseconds with a zone.
  - The configuration; `DefaultConfiguration` is `default_configuration`, where threads are off, `max_threads` is 10 and there is no zone.
- `TickworkEvent` (event.dfy): what an event is and when it is due. An event is a value: the model never changes it after construction (the writers `job=` and `data_store_key=` are left out, see below). Its `last` lives in the store, a map from keys to the milliseconds of the time written.
- `TickworkDispatch` (dispatch.dfy): the tick pipeline as functions on the state it changes.
  - The state is the store, the live-thread count and a `trace`.
  - The trace records, in order, what the manager did: each callback firing with the answers it got, log lines, writes of `last`, calls of job bodies, thread starts, the "Threads exhausted" line of a job skipped for want of a thread, and calls of the error handler.
  - Lemmas state what a run, the loop over the due events and a whole tick add to the trace and to the store.
- `TickworkRegistry` (registry.dfy): `handler`, `on`, `register` with its duplicate guard, and `every` with its expansion of a list of `:at` times, all as functions, with the invariant that job names are valid and distinct.
- `TickworkManager` (manager.dfy): the class `Manager`. Its fields are updated in place by methods proved to agree with the functions above. `Tick` and `Every` hold the source's loops, with their invariants.

The code the scheduler only calls is a parameter of type `Oracles`: hook
handlers, `:if` predicates, `At#ready?`, job bodies and the error handler.

- A hook's answer may depend on everything recorded before it, on its phase, on the event's name, on its position in the phase's list and on the handler.
- Each tick is given its own oracles, so answers may also depend on the tick's time.
- A job body is described by whether it raises, and with what message.
- The error handler is described by whether it raises in turn.

## Model

| member | source | states |
|---|---|---|
| `TickworkEvent.ValidateIfAsWritten` | lib/tickwork/event.rb:77-81 | The check as written passes exactly when `:if` is absent, callable or `false`; otherwise it fails with the literal, uninterpolated message |
| `TickworkEvent.FalseIfPassesAsWritten` | lib/tickwork/event.rb:78 | `:if => false` passes the check as written although `false` is not callable |
| `TickworkEvent.IfMessageAsWrittenIgnoresValue` | lib/tickwork/event.rb:79 | The message as written is the same whatever value was given |
| `TickworkEvent.ValidateIf` | lib/tickwork/event.rb:77-81 | Corrected check: passes exactly when `:if` is absent or callable; otherwise an ArgumentError whose message holds the value's text |
| `TickworkEvent.NewEvent` | lib/tickwork/event.rb:7-21 | Built on the corrected `:if` check `ValidateIf` (see Findings), not the one as written. Errors come in order: that `:if` check first, then IllegalJobName for a job that is not a non-empty string or is the manager key, then the `:at` parse failure. It succeeds exactly when all three pass. Then `to_s` is the job, the key is the namespace (default `_tickwork_`) followed by the job, thread mode and zone are the option's value whenever the key is present and otherwise the configuration's, and the period, body, `:at` and `:if` are kept |
| `TickworkEvent.ConvertTimezone` | lib/tickwork/event.rb:31-33 | The instant is kept; a configured zone becomes the time's zone; with no zone the time is unchanged |
| `TickworkEvent.ToS` | lib/tickwork/event.rb:65-67 | An event is shown as its job name |
| `TickworkEvent.Last` | lib/tickwork/event.rb:23-25 | `last` is present exactly when the store holds the event's key, and is then the stored value |
| `TickworkEvent.LastAfterWrite` | lib/tickwork/event.rb:23-29 | After `last = v`, `last` reads v; an event with another key reads what it read before |
| `TickworkEvent.DefaultConfigurationEvent` | lib/tickwork/manager.rb:32-34 | Under the default configuration, an event whose options name no thread mode and no zone runs inline and in no zone |
| `TickworkEvent.ElapsedReady` | lib/tickwork/event.rb:40-42 | True when there is no `last`; otherwise true exactly when t has reached the start of the whole second of `last` plus the period |
| `TickworkEvent.RunNow` | lib/tickwork/event.rb:35-38 | A due event has passed the elapsed check; with no `:at` and no `:if`, due is exactly the elapsed check; a never-run plain event is due |
| `TickworkEvent.DueBoundary` | lib/tickwork/event.rb:40-42 | Once `last` is written at T, the elapsed check passes at T' exactly when T' is at or past the start of T's whole second plus the period |
| `TickworkEvent.SameSecondSameSchedule` | lib/tickwork/event.rb:40-42 | Two runs in the same whole second lead to the same due times: the sub-second part of `last` does not move the schedule |
| `TickworkEvent.HourlyJobDoesNotDrift` | test/manager_test.rb:71-77 | An hourly job run at 10:00:00.5 is not due at 10:59:59.999 and is due at 11:00:00.0 |
| `TickworkEvent.JustRanNotDue` | lib/tickwork/event.rb:35-42 | After a run at T, the event is not due before one whole-second period has passed, whatever `:at` and `:if` say |
| `TickworkDispatch.PhaseNamed` | lib/tickwork/manager.rb:48 | The name of a phase is recognised as that phase; any other name is no phase |
| `TickworkDispatch.Answers` | lib/tickwork/manager.rb:61 | The handlers are called in order, each on its own position; every answer before the last is true; if they stop before the end, the last answer is false |
| `TickworkDispatch.FireCallbacks` | lib/tickwork/manager.rb:60-62 | True when the phase has no entry; otherwise true exactly when every handler was called and answered true; on false, the last handler called answered false |
| `TickworkDispatch.EventsToRun` | lib/tickwork/manager.rb:100-102 | The due events are exactly the registered events whose `run_now?` holds, and they keep registration order |
| `TickworkDispatch.ExecuteSpec` | lib/tickwork/event.rb:70-75 | Store and thread count are untouched. The tick is ended exactly when the body raises, an error handler exists and it raises too, and the exception is the error handler's |
| `TickworkDispatch.RunSpec` | lib/tickwork/event.rb:48-63 | `last` becomes t. A thread is taken exactly when the event runs in thread mode and one is free. Only an inline run can end the tick |
| `TickworkDispatch.RunAll` | lib/tickwork/manager.rb:76-81 | The loop never lowers the live-thread count and never takes it past `max_threads`. It never removes a `last`. It can end the tick only when some event was due |
| `TickworkDispatch.TickSpec` | lib/tickwork/manager.rb:73-85 | `tick` returns nil exactly when `before_tick` vetoes. A tick that returns gives the events due at t on the store before the tick. Threads stay within `max_threads`, and no `last` is removed |
| `TickworkDispatch.ExecuteRecord` | lib/tickwork/event.rb:70-75 | The body is called with the job and `last`. If it raises, the error is logged and then passed to the error handler when there is one; otherwise nothing more happens. The tick ends exactly when the body raises, an error handler exists and it raises too. Store and thread count are untouched |
| `TickworkDispatch.RunRecord` | lib/tickwork/event.rb:48-63 | `run` logs and writes `last` = t before anything else. Inline, the body then receives t as `last`. In thread mode it takes a free thread or, with none free, logs exactly one "Threads exhausted; skipping <job>" and runs nothing. On every path `last` is t afterwards |
| `TickworkDispatch.RunProjections` | lib/tickwork/event.rb:48-63 | A run triggers its own job once, writes its own key once, dispatches its own body once (called inline, handed to a thread, or skipped as exhausted), fires no callback, and never takes the thread count past `max_threads` |
| `TickworkDispatch.SecondThreadExhausted` | test/manager_test.rb:292-304 | With `max_threads` 1 and two thread-mode jobs, the first takes the thread and the second logs "Threads exhausted; skipping myjob2" |
| `TickworkDispatch.OverwriteSpec` | lib/tickwork/event.rb:27-29 | Writing `last` for a list of keys sets exactly those keys and keeps every other entry |
| `TickworkDispatch.RunAllRecord` | lib/tickwork/manager.rb:76-81 | Without an exception, `before_run` is consulted once for every due event in order, even vetoed ones. Exactly the approved events run, in order: the bodies dispatched are theirs and no others, the keys written are theirs and no others, each holding t, and each run is followed by one `after_run`. No tick phase fires. Threads stay within `max_threads` |
| `TickworkDispatch.RunAllAbortRecord` | lib/tickwork/manager.rb:76-81 | When the error handler raises, the loop records no tick phase, and the error handler's call is the last thing recorded |
| `TickworkDispatch.TickVetoedRecord` | lib/tickwork/manager.rb:73-85 | When `before_tick` vetoes, `tick` returns nil. `after_tick` fires exactly once. No event runs and no `before_run` or `after_run` fires. Store and threads are untouched |
| `TickworkDispatch.TickReturnedRecord` | lib/tickwork/manager.rb:73-85 | When `before_tick` passes and nothing raises, `tick` returns exactly the due events in registration order. `before_tick` fires first with every handler approving, and `after_tick` fires last. The loop record of `RunAllRecord` holds for the due events: the bodies dispatched and the keys written are exactly the approved events' ones |
| `TickworkDispatch.ApprovedSubsequence` | lib/tickwork/manager.rb:77-78 | The events `before_run` approves are some of the due events, in their order |
| `TickworkDispatch.TickLastWritten` | lib/tickwork/manager.rb:76-80 | After a tick that returns, the bodies dispatched are exactly the approved events' ones, in order; every approved event reads t as its `last`; an event whose key no approved event has, in particular a vetoed one, reads the `last` it read before |
| `TickworkDispatch.HourlyTicksDoNotDrift` | test/manager_test.rb:71-77 | Over three ticks with no callbacks and no error handler, a plain hourly job runs at 10:00:00.5, is not returned at 10:59:59.999, and runs again at 11:00:00.0, writing that time |
| `TickworkDispatch.QuietTick` | lib/tickwork/manager.rb:73-85 | With no callbacks and no error handler, a tick of one plain event returns it exactly when its elapsed check passes, and then writes t as its `last`; otherwise the store is unchanged |
| `TickworkDispatch.TickRaisedRecord` | lib/tickwork/manager.rb:73-85 | When the error handler raises, the exception leaves `tick`: `before_tick` fires, `after_tick` does not, and the handler's call is the last thing recorded |
| `TickworkRegistry.Names` | lib/tickwork/manager.rb:112 | The names are the events' `to_s`, one per event, in order |
| `TickworkRegistry.GuardDuplicateEvents` | lib/tickwork/manager.rb:111-115 | DuplicateJobName exactly when a registered event has the same name |
| `TickworkRegistry.HandlerFor` | lib/tickwork/manager.rb:105 | The body of a registration is the block when given, else the default handler; NoHandlerDefined exactly when there is neither |
| `TickworkRegistry.Registration` | lib/tickwork/manager.rb:104-109 | Errors come in order: NoHandlerDefined when there is neither a block nor a default handler, then the event's own errors, then DuplicateJobName. A registered event has a fresh, valid name and keeps its `:at` and period |
| `TickworkRegistry.RegistrationKeepsValid` | lib/tickwork/manager.rb:104-115 | Registering keeps every name valid and all names distinct |
| `TickworkRegistry.DuplicateRejected` | lib/tickwork/manager.rb:111-115 | Reusing a registered name fails with DuplicateJobName and leaves the events unchanged |
| `TickworkRegistry.AddCallback` | lib/tickwork/manager.rb:47-50 | Only the four phase names are accepted; any other raises "Unsupported callback". An accepted block is appended to its phase's list and no other list changes |
| `TickworkRegistry.Every` | lib/tickwork/manager.rb:52-58 | A single `:at` is one registration, which appends its event or reports its error. An empty list registers nothing. A job that is not a string fails on a non-empty list before registering anything. A non-empty list with a string job is exactly `RegisterEach` over that list |
| `TickworkRegistry.RegisterAll` | lib/tickwork/manager.rb:119-122 | The loop over the entries appends at most one event per entry, and all of them exactly when no step fails |
| `TickworkRegistry.RegisterEach` | lib/tickwork/manager.rb:117-123 | `every_with_multiple_times` appends at most one event per `:at` entry, and all of them exactly when no registration fails |
| `TickworkRegistry.RegisterEachAppends` | lib/tickwork/manager.rb:117-123 | The `:at` loop only appends, at most one event per entry. It appends all of them exactly when nothing fails; otherwise the error is the one the first unregistered entry gives, and the earlier entries stay registered |
| `TickworkRegistry.RegisterEachEntries` | lib/tickwork/manager.rb:117-123 | Appended event i is what registering `job_<at i>` with `:at` i gives, after the events before it |
| `TickworkRegistry.RegisterEachNames` | lib/tickwork/manager.rb:117-123 | Appended event i is named `job + '_' + at i`, has that single `:at` and the common period |
| `TickworkRegistry.RegisterEachKeepsValid` | lib/tickwork/manager.rb:117-123 | The `:at` loop keeps every name valid and all names distinct |
| `TickworkRegistry.RepeatedAtRejected` | lib/tickwork/manager.rb:117-123 | A list naming the same time twice registers the first and fails on the second with DuplicateJobName |
| `TickworkManager.Manager.constructor` | lib/tickwork/manager.rb:8-13 | A new manager has no events, callbacks, handler or error handler, and no thread |
| `TickworkManager.Manager.Handler` | lib/tickwork/manager.rb:36-40 | A given block becomes the handler. The result is the handler, or NoHandlerDefined when there is none |
| `TickworkManager.Manager.ErrorHandler` | lib/tickwork/manager.rb:42-45 | A given block becomes the error handler; the result is the error handler |
| `TickworkManager.Manager.On` | lib/tickwork/manager.rb:47-50 | The registry becomes what `AddCallback` gives, or stays unchanged on error |
| `TickworkManager.Manager.Register` | lib/tickwork/manager.rb:104-109 | The result is `Registration`'s, the event is appended exactly on success, and names stay valid and distinct |
| `TickworkManager.Manager.Every` | lib/tickwork/manager.rb:117-123 | The events and the error are `Every`'s; the loop over the `:at` list has the invariant that what is left to register gives the same outcome |
| `TickworkManager.Manager.FireCallbacks` | lib/tickwork/manager.rb:60-62 | Returns `FireCallbacks` and records the firing |
| `TickworkManager.Manager.Execute` | lib/tickwork/event.rb:70-75 | The new state is `ExecuteSpec`'s, and the error handler's exception is returned exactly when it raises |
| `TickworkManager.Manager.RunEvent` | lib/tickwork/event.rb:48-63 | The new store, thread count and record are `RunSpec`'s; it raises exactly when `RunSpec` aborts |
| `TickworkManager.Manager.RunDue` | lib/tickwork/manager.rb:76-81 | The loop over the due events ends in `RunAll`'s state and raises exactly when `RunAll` aborts |
| `TickworkManager.Manager.Tick` | lib/tickwork/manager.rb:73-85 | Result and new state are `TickSpec`'s for the registered events |
| `TickworkManager.Manager.ThreadAvailable` | lib/tickwork/manager.rb:15-17 | A thread is available exactly when starting one keeps the live count within `max_threads` |
| `TickworkManager.Manager.ThreadsFinished` | lib/tickwork/manager.rb:15-17 | Finished threads leave the count of live threads |

## Left out

- TickworkEvent.NewEvent: builds events with the corrected `:if` check `ValidateIf`, not the check as written (lib/tickwork/event.rb:77-81). So `:if => false` is rejected here, while the source accepts it and its `run_now?` then raises on `false.call`. And the ArgumentError message names the value, while the source raises the literal text with `#{if_option}` in it. `Registration`, `Every` and the `Manager` methods inherit this. The check as written is `ValidateIfAsWritten`.
- Exceptions outside StandardError are not modelled. `execute` rescues only StandardError (`rescue => e`), so a body that raises SystemExit, Interrupt or NotImplementedError leaves `execute`, `run` and `tick`, is not logged, and never reaches the error handler. The `body` oracle reports only errors that are rescued.
- The public writers `job=` and `data_store_key=` (`attr_accessor`, lib/tickwork/event.rb:5) are not modelled. They change an event's name or key after registration, bypassing the duplicate guard; events in the model keep the name and key they were built with.
- The catch-up loop is left out: the manager's checkpoint, `max_ticks`, `max_catchup`, `tick_size` and `clear!`. The code has none of it; `run` is `loop { tick; sleep }`. The tests for it, and the tests of configuration defaults, describe another revision and disagree with this code; the model follows the code.
- `run` and `configure` are left out. `run` is an endless loop that sleeps on floating-point wall-clock time. `configure` only yields the configuration and logs warnings. The configuration is a constructor argument, and `DefaultConfiguration` is what `default_configuration` gives.
- Threads are not executed. `thread_available?` is the count of live threads compared with `max_threads`; `ThreadsFinished` is the environment ending some of them. A body handed to a thread is recorded as started and not run.
- Threads started by other code are not counted, as in the source.
- `At.parse` and `At#ready?` are parameters, since `tickwork/at` is not part of this model. An unparsable `:at` gives FailedToParse.
- Entries of an `:at` list are strings. A non-string entry, which makes `job + '_' + at` raise, is not modelled.
- `in_time_zone` is modelled as keeping the instant and setting the zone. Nothing else of ActiveSupport is modelled.
- Loggers are not modelled as output: what is logged is an entry of the trace. The "Threads exhausted; skipping <job>" line is the entry `Exhausted(job)`, whose text is `ThreadsExhausted`.
- Exceptions raised by hook handlers and by `:if` predicates are not modelled; they are given as booleans. Their side effects on the application are left to the oracles.
- `on` without a block, which stores `nil` and fails when the phase fires, is not modelled: `On` takes a block.
- `on`'s options argument is ignored by the source and is not modelled.
- `Manager::MANAGER_KEY` is not defined in the manager code; it is the constructor parameter `managerKey`.
- The data store is a map. `data_store.rb`, the fake store used by the tests and how the manager obtains its store are not part of this model.
- `TickworkManager.Manager.Every`: returns only the error. The source returns the event or the `:at` list; the events it added are the new value of `events`.
- An option given as `nil` (`:thread => nil`, `:tz => nil`) behaves like `false` or no zone. It is modelled by giving those values.
- Hook handlers receive the event object and t. The model passes the event's name; t is available to the oracles of the tick.

## Findings

| source | as written | input that shows it | evidently intended | confidence | as-written member | corrected member |
|---|---|---|---|---|---|---|
| lib/tickwork/event.rb:78 | `if if_option && !if_option.respond_to?(:call)` checks only a truthy value | `every(1.second, 'job', :if => false)` is accepted; `run_now?` will later call `false.call` | every present `:if` that is not callable is rejected | high, not executed | `TickworkEvent.FalseIfPassesAsWritten` | `TickworkEvent.ValidateIf` |
| lib/tickwork/event.rb:79 | the message is in single quotes, so `#{if_option}` is not interpolated | `:if => true` and `:if => 5` give the same message, containing the text `#{if_option}` | the message names the offending value | high, not executed | `TickworkEvent.IfMessageAsWrittenIgnoresValue` | `TickworkEvent.ValidateIf` |
