# taskgroup core, modelled in Dafny

This project models three pieces of the `taskgroup` JavaScript library and
proves what they promise.

- **`Task`** (`source/lib/task.js`) is one unit of work. It moves through a
  strict lifecycle: `created`, `pending`, `running`, then `passed` or `failed`,
  then `destroyed`. It keeps the first error it saw and the arguments it
  completed with. It announces every step as an event, and it defers work to
  the host's queue.
- **`EventSystem`** (`out/lib/events.js`) is a named-event lock. It holds a
  lazily filled table of `{locked, finished}` records, one per name. Its
  operations are:
  - `lock`/`unlock`, where a refused lock retries on the next `name:unlocked`;
  - the `start`/`finished` phases;
  - the `onceUnlocked`/`onceFinished`/`whenFinished` gates;
  - `block`/`unblock`, which lock or unlock a list of names through one shared
    counter.
- **Two helpers** of `esnext/lib/util.js`: `errorToString` and `ensureArray`.

Files:

| file | module | contents |
|---|---|---|
| `values.dfy` | `Values` | abstract JavaScript values: truthiness, property reads, `String(v)` |
| `util.dfy` | `Util` | `errorToString`, `ensureArray` |
| `emitter.dfy` | `Emitter` | the emitter's listener table: which listeners an emission calls, and which one-shot listeners it removes |
| `task.dfy` | `Tasks` | the status getters, `setConfig` argument classification, class `Task` |
| `events.dfy` | `Events` | event names, `split(/[,\s]+/)`, the lock log and mutual exclusion, class `EventSystem` |

Modelling choices:

- **The emitter** is a listener table (`listeners`) plus a log of emissions
  (`emitted`).
- **Callbacks** are tokens. Calling one appends an entry to a log of
  invocations (`invoked` for a task, `calls` for the event system).
- **The host's `queue`** is a FIFO of jobs (`Task.queue`). `RunNextJob` runs the
  oldest job.
- **The wrapped method's behaviour** is an input (`Behaviour`):
  - the argument lists it passes to its completion callback while it runs;
  - whether it then throws.

  A synchronous method that returns a value is the `ambi` case of one
  completion. A completion made later is the separate `CompleteMethod`
  operation.
- **Node's domain** is two booleans:
  - `taskDomain`: the isolation boundary is active;
  - `completerHoldsDomain`: the completion callback built by `fire` still
    refers to the domain.
- **`block`/`unblock` closures** are `Cont` values. In the event system, the
  per-name closures share one `Counter(done, total, next)`.
- **Ghost state** carries the invariant `Valid()` through nested calls:
  - the counters whose `next` has run (`fired`);
  - the closures not yet issued (`unissued`).

  The invariant `Valid()` says four things:
  - every record's `locked` flag is what the log of `:locked`/`:unlocked`
    events says;
  - the log never locks a held name;
  - every counter's `done`, plus its closures still waiting, is its `total`;
  - a counter's `next` has run exactly once if its `total` was reached, and
    never otherwise.

## Model

| member | source | states |
|---|---|---|
| Util.ErrorToString | esnext/lib/util.js:12-25 | null exactly for a falsy error; otherwise the stack if truthy, else the message if truthy, else the error's own text |
| Util.StackWins | esnext/lib/util.js:16-17 | once a truthy stack is present, neither the message nor the object's text can change the result |
| Util.MessageWithoutStack | esnext/lib/util.js:19-21 | an `Error` with a message and no stack prints as its message |
| Util.PrimitiveError | esnext/lib/util.js:22-24 | a truthy primitive (no stack, no message) prints as `String(v)` |
| Util.EnsureArray | esnext/lib/util.js:28-31 | the result is always an array; an array comes back unchanged; anything else becomes the one-element array holding it |
| Util.EnsureArrayIdempotent | esnext/lib/util.js:28-31 | applying it twice equals applying it once, and the argument is recoverable from the result |
| Emitter.OnceFiresOnce | source/lib/task.js:360-382 | after an emission, a second emission of the same event reaches only the persistent listeners the first one reached: a one-shot listener fires at most once |
| Emitter.OtherEventsUntouched | source/lib/task.js:14-22 | emitting one event leaves the listeners of every other event, and their order, untouched |
| Tasks.StatusHierarchy | source/lib/task.js:141-176 | `completed` implies `exited`, which implies `started`; `exited` but not `completed` iff `destroyed`; not `started` iff `created` |
| Tasks.EmitKeepsDestroyers | source/lib/task.js:475-498 | an emission keeps destroy handlers waiting once on `done`; one other than `done` keeps every destroy handler; an emission of `done` reaches all of them |
| Tasks.DoneClearsDestroyers | source/lib/task.js:475-498 | after an emission of `done` no destroy handler is left |
| Tasks.RecordError | source/lib/task.js:393-397 | a recorded truthy error is kept; otherwise a truthy leading argument is recorded; the result is truthy iff either was |
| Tasks.ClassifyRejects | source/lib/task.js:276-294 | `setConfig` rejects its arguments exactly when one of them is not null, a string, a function or an object |
| Tasks.LaterArgumentsWin | source/lib/task.js:276-291 | arguments apply left to right: a later name replaces an earlier one; a null argument changes nothing |
| Tasks.ExtractOptions | source/lib/task.js:276-294 | the loop over the arguments computes the classification `Classify`, or rejection |
| Tasks.Task.constructor | source/lib/task.js:217-246 | a new task is `created` with a null error, no result, no listeners and an empty queue; `destroyOnceDone`, `errorOnExcessCompletions` and `domain` are on, `sync` is off |
| Tasks.Task.ClearDomain | source/lib/task.js:199-207 | the domain is no longer active |
| Tasks.Task.DestroyHandler | source/lib/task.js:477-494 | on a destroyed task nothing changes; otherwise status `destroyed`, `destroyed` emitted once (reaching its listeners), every listener removed, the domain cleared |
| Tasks.Task.CallDoneListeners | source/lib/task.js:477-494 | running a snapshot of `done` listeners: the callbacks run in order; the first destroy handler destroys a live task; any later one finds it destroyed and does nothing |
| Tasks.Task.EmitStatus | source/lib/task.js:441-444 | `failed` iff the error is truthy, else `passed`, is recorded and emitted with the error; a waiting destroy handler stays waiting and will destroy the task at `done` |
| Tasks.Task.EmitForwarded | source/lib/task.js:20-22 | `completed` and `error` are forwarded to `done`: the `done` listeners run and the table keeps no destroy handler |
| Tasks.Task.FinishFirst | source/lib/task.js:440-451 | first completion: status `failed` iff an error is recorded, else `passed`; emits that status with the error, then `completed` and `done` with the result (or `[]`), then `destroyed` if a destroy handler waited; the error is cleared |
| Tasks.Task.Finish | source/lib/task.js:436-467 | the first time, as above, plus a deferred destroy job when `destroyOnceDone` is set; when already exited, status, result, error and queue are unchanged and `error` (forwarded to `done`) is emitted iff `errorOnExcessCompletions` |
| Tasks.Task.Destroy | source/lib/task.js:475-498 | on a completed task the destroy handler is deferred to the queue; otherwise it is registered, once, on `done` |
| Tasks.Task.ItemCompletionCallback | source/lib/task.js:392-410 | before the task exited: the first truthy error is kept, non-empty arguments become the result, the status becomes `failed`/`passed` (or `destroyed` with a waiting destroy handler), the status event, `completed` and `done` are emitted in that order, the error is cleared and a destroy is queued when `destroyOnceDone`; after it exited: status and result stay, an error not yet recorded is kept, and the excess is reported iff `errorOnExcessCompletions` |
| Tasks.Task.CompleteMethod | source/lib/task.js:533-547 | in sync mode or with the domain still held, the domain is dropped and the completion takes effect at once with the full outcome `ItemCompletionCallback` states (status, result, error, emissions, queue); otherwise only one completion job is appended to the queue and nothing else changes |
| Tasks.Task.OutOfBandError | source/lib/task.js:525-528 | with an active domain, the error goes down the completion path with the outcome `ItemCompletionCallback` states for `[e]`; without one, status, result, error, emissions, listeners and queue are unchanged |
| Tasks.Task.RunCompletions | source/lib/task.js:533-547 | in sync mode or under a domain, the first completion decides status (`failed` iff its leading argument or an earlier error is truthy, else `passed`; `destroyed` with a waiting destroy handler), result and the leading emissions, and later completions change none of them; otherwise, or with no completion, the task stays `running`, unchanged but for one queued job per completion, in order |
| Tasks.Task.InvokeMethod | source/lib/task.js:550-580 | as `RunCompletions` for the completions; with no honoured completion, a method that does not throw leaves the task `running` with result, error and emissions unchanged, and one that throws completes the task with the thrown value as its error (unless one was recorded); a throw after a completion that tore the domain down escapes uncaught |
| Tasks.Task.Fire | source/lib/task.js:506-584 | with no method, `error` is emitted (and forwarded to `done`) and error, result and queue stay; otherwise the domain is active iff it was or is wanted and available, `running` is emitted, and the method's outcome is as `InvokeMethod` states for that domain |
| Tasks.Task.Run | source/lib/task.js:593-610 | from a status other than `created`: `error` emitted, the queue unchanged, the status kept (unless a waiting destroy handler runs); from `created`: status `pending`, `pending` emitted, `fire` deferred to the queue, not run |
| Tasks.Task.OnceDone | source/lib/task.js:368-382 | on a completed task the listener is queued and not called now; otherwise it is registered once on `done` |
| Tasks.Task.WhenDone | source/lib/task.js:344-358 | on a completed task the listener is queued and not called now; otherwise it is registered on every `done` |
| Tasks.Task.RunNextJob | esnext/lib/util.js:7-9 | the oldest job runs and is removed: `fire` with the outcome `Fire` states; a deferred completion with the outcome `ItemCompletionCallback` states; a deferred listener receives the result (or `[]`); a deferred destroy destroys a live task once and is a no-op on a destroyed one; an empty queue changes nothing |
| Tasks.Task.SetConfig | source/lib/task.js:272-330 | accepted iff every argument has a supported type; a rejected call changes no option, listener or queue; an accepted one overrides exactly the options given (null leaves a setting) and registers `whenDone`, `onceDone`, `done` and `next` (each given one once, `whenDone` for every `done`), queued instead on a completed task |
| Tasks.Task.RegisterDone | source/lib/task.js:312-320 | the listeners given are appended to the `done` listeners in order, one-shot or persistent as given; on a completed task they are instead queued in order to receive the result, and no listener is added |
| Events.TopicStringInjective | out/lib/events.js:53 | `name + ':locked'` and the other three suffixes never collide: equal event strings mean the same name and phase |
| Events.Split | out/lib/events.js:178-179 | `split(/[,\s]+/)` yields at least one piece and no piece contains a comma or whitespace |
| Events.SplitWhole | out/lib/events.js:178-179 | a string without a comma or whitespace splits into itself alone |
| Events.SplitCut | out/lib/events.js:178-179 | a separator-free piece followed by any non-empty run of commas and whitespace cuts exactly once there: the piece, then the split of the rest; a leading run yields a leading empty piece |
| Events.SplitJoin | out/lib/events.js:178-179 | non-empty separator-free names written comma-separated split back into the same list |
| Events.LazyCreation | out/lib/events.js:40-44 | creating a record lazily is unobservable: every name reads the same record before and after; a locked name has a stored record |
| Events.MutualExclusion | out/lib/events.js:46-84 | in the log of lock events, between two `:locked` events of one name there is always an `:unlocked` event of that name |
| Events.LockFlip | out/lib/events.js:49-53 | setting the flag and then emitting `:locked` (only when the flag was off) or `:unlocked` keeps the flags agreeing with the log and the log exclusive |
| Events.OtherEventKeepsLocks | out/lib/events.js:86-132 | `:started` and `:finished` events leave every lock state as it was |
| Events.QueueHandedOver | out/lib/events.js:71-84 | emitting `name:unlocked` hands the whole queue of lock requests of `name` to the emission and leaves none on the table |
| Events.Untouched | out/lib/events.js:40-84 | an operation that changes only the record and requests of one name leaves every other name's record and request queue as they were |
| Events.DeliveredAdvance | out/lib/events.js:61-66 | one wake-up extends the hand-over: the lock goes to the first request among the listeners run so far, the rest are queued again, and no waiting closure is duplicated |
| Events.LockedKept | out/lib/events.js:186-197 | locking one more name of `block` keeps every earlier name locked |
| Events.UnlockedKept | out/lib/events.js:216-226 | unlocking one more name of `unblock` keeps every earlier name's `:unlocked` emission and, for a name with no queued request, its free state, and queues no new request on any listed name |
| Events.ConstructorLockNeverSettles | out/lib/events.js:46-69 | with a plain-object table, `lock("constructor")` neither takes the lock nor waits, after any number of nested calls |
| Events.LockStepOf | out/lib/events.js:46-69 | the intended step: take the lock iff the name is free, otherwise wait; never recurse |
| Events.AsWrittenAgrees | out/lib/events.js:40-69 | for every name that is not an inherited key, the code as written takes the intended step after one call |
| Events.EventSystem.constructor | out/lib/events.js:34-38 | a new system has no records, listeners, emissions, calls or counters |
| Events.EventSystem.GetEvent | out/lib/events.js:40-44 | `event(name)` returns the stored record, or a fresh unlocked, unfinished one that it stores |
| Events.EventSystem.Lock | out/lib/events.js:46-69 | takes the step `LockStepOf` names: on a free name the flag is set, `:locked` emitted and `next` run (a `start` continuation clearing `finished`); on a held name the state is unchanged except one retry queued on `:unlocked`; afterwards the name is locked, other names and their queues are untouched, and the invariant is kept |
| Events.EventSystem.TakeLock | out/lib/events.js:51-53 | the flag of `name` is set, `:locked` emitted and its listeners called, and no other record or queue changes |
| Events.EventSystem.Wake | out/lib/events.js:61-66 | one listener of an `:unlocked` emission: a callback is called and the record kept; a retry closure locks again and so takes the lock (clearing `finished` for a `start`) or queues again; other names are untouched |
| Events.EventSystem.Deliver | out/lib/events.js:71-84 | the listeners of an `:unlocked` emission run in order: the name ends up held iff a lock request was among them, the first request holds it and all later ones are queued again in order, `finished` is cleared iff that first request was a `start`, with none the record is unchanged, and no other name is touched |
| Events.EventSystem.DeliverNext | out/lib/events.js:61-66 | one more listener of the emission runs and the hand-over facts `DeliveredUpTo` states extend from the first `i` listeners to the first `i + 1` |
| Events.EventSystem.Release | out/lib/events.js:71-76 | the flag is cleared, `:unlocked` emitted, and its listeners (the whole queue of `name`) taken off the table |
| Events.EventSystem.Unlock | out/lib/events.js:71-84 | `:unlocked` is emitted; the name is held afterwards iff a request was queued, the oldest request holds it and the rest stay queued in order; with no request the flag is cleared; `finished` is cleared iff the oldest request was a `start`; other names are untouched; `next` runs last |
| Events.EventSystem.RunCont | out/lib/events.js:55-58 | running the callback of a lock or unlock does what that callback does (`ContDone`) and leaves the lock state and queue of the name unchanged |
| Events.EventSystem.Announce | out/lib/events.js:88-102 | the closures of `start`/`finished`: `start` resets `finished`; `name:started` or `name:finished` is emitted, then `next` called |
| Events.EventSystem.Tick | out/lib/events.js:189-197 | the per-name closure of `block`/`unblock` adds one to `done` and calls the shared `next` iff that makes `done` equal `total` |
| Events.EventSystem.Start | out/lib/events.js:86-105 | on a free name: the record becomes locked and unfinished, `:locked` then `:started` emitted, `next` called; on a held name only a retry is queued |
| Events.EventSystem.Finish | out/lib/events.js:107-132 | `finished` and its alias `finish`: the name ends held iff a request was queued, unfinished iff the oldest was a `start`, finished otherwise; with no request the record is free and finished; `:unlocked` then, last of all, `:finished` are emitted and `next` is the last call |
| Events.EventSystem.OnceUnlocked | out/lib/events.js:134-146 | `next` is called now iff the name is free, otherwise registered once on `:unlocked` |
| Events.EventSystem.OnceFinished | out/lib/events.js:148-157 | `next` is called now iff the name has finished, otherwise registered once on `:finished` |
| Events.EventSystem.WhenFinished | out/lib/events.js:159-167 | `next` is called now iff the name has finished, and in any case registered on every `:finished` |
| Events.EventSystem.Block | out/lib/events.js:175-201 | an unsupported argument calls `next` with an error and changes nothing else; otherwise every listed name is locked afterwards, one counter over the names has `done` plus pending requests equal to their number, and `next` has run once iff all were taken, never for an empty list |
| Events.EventSystem.BlockOne | out/lib/events.js:186-197 | one lock of `block` leaves its name locked, consumes one closure and keeps the counter's total and `next`, touching no other name |
| Events.EventSystem.Unblock | out/lib/events.js:203-229 | an unsupported argument calls `next` with an error and changes nothing else; otherwise `:unlocked` was emitted for every listed name, each name with no queued request ends unlocked, the new counter is complete (`done` equals the number of names), and `next` ran exactly once, never for an empty list |
| Events.EventSystem.UnblockOne | out/lib/events.js:216-226 | one unlock of `unblock` emits `:unlocked`, hands the name to its oldest queued request or leaves it free, advances its counter's `done` by exactly one and leaves none of its requests waiting |

## Left out

- The Group scheduler, `out/lib/modules.js`, `web/index.js` and `BaseInterface`
  are not part of this model.
- Emitter semantics: `BaseInterface` is not part of this model, so its
  behaviour is assumed:
  - `onceDone` is `once('done')` and `whenDone` is `on('done')`;
  - the `this.done(...)` that `destroy` calls (`source/lib/task.js:477`) is
    the task's own `onceDone`, so on a completed task the destroy handler is
    deferred to the queue;
  - `completed` and `error` are forwarded to `done`, as the event
    documentation at `source/lib/task.js:14-22` describes, and the `done`
    listeners run before the forwarded event's own listeners.
- One-shot listeners: the model removes them all when an emission starts. Node
  removes each one just before calling it. The destroy handler and the lock
  retry closures do act back on the same object, but the two schemes still
  agree: whatever such a listener adds goes to the end of its event's list,
  the order of each event's listeners is kept, and an emission only calls the
  snapshot it took when it started.
- User callbacks are tokens. Re-entrant calls from user code into a task or an
  event system are not modelled.
- `ambi`: calling-convention detection is replaced by the `Behaviour` input.
  The `args` and `ambi` options are not modelled.
- The `on`/`once` maps and the `parent` option of `setConfig` are not
  modelled. `extendr.deep` is modelled as a shallow override, option by option.
- SetConfig: registers the `done` listeners in the fixed order `whenDone`,
  `onceDone`, `done`, `next`. The source applies the options in the order
  their keys first appear in the merged options object, which the model's
  record of options does not keep.
- Default names from `Math.random`, error message texts beyond their identity,
  and `this.names` are not modelled.
- `abort` only throws "not yet implemented".
- Domains: they are modelled as booleans. The model does not capture how Node
  routes out-of-band errors beyond the `OutOfBandError` entry point.
- `emitAsync`/`emitSync` and `debug` logging in `out/lib/events.js` depend on
  code that is not part of this model.
- `when` is a plain alias of `on`.
- Emissions are taken to never throw. The `catch`/`finally` paths of `lock`,
  `unlock`, `start` and `finished`, which would call `next` twice, are not
  modelled. On a task, `destroy` removes every listener
  (`source/lib/task.js:490`), so a later excess completion
  (`source/lib/task.js:462`) or a `run` of a destroyed task
  (`source/lib/task.js:597`) emits `error` with no listener. Node throws in
  that case; the model records the emission and goes on.
- The `name` field of `Event`: the constructor reads `_arg.name` from a
  string, so it is always undefined, and nothing reads it.
- `block`/`unblock` arrays: elements are taken to be strings. `split` works on
  UTF-16 code units, and characters are Dafny `char`s.
- The `err` branches of the per-name closures are not modelled. They are
  unreachable once emissions never throw.
- Events.EventSystem.Lock: the model's table is a map, so a name such as
  `constructor` gets its own record. This is the corrected behaviour; see
  Findings.

## Findings

| source | as written | input that shows it | evidently intended | confidence | as-written member | corrected member |
|---|---|---|---|---|---|---|
| out/lib/events.js:43 | the table `_eventSystemEvents` is a plain object, so `event(name)` returns the member a name inherits from `Object.prototype` instead of a record; `lock` then sees `locked === false` fail, `onceUnlocked` sees `locked` falsy and retries at once | `lock("constructor", next)`, in a process where nothing has yet written `locked` through that name (no earlier `unlock` or `finished` of it), recurses without end and never takes the lock or calls `next` | every name has its own record, so a lock is either taken or queued | medium, not executed | Events.ConstructorLockNeverSettles | Events.EventSystem.Lock |
