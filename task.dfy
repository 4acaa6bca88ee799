/** The Task of the task library: one unit of work with a strict lifecycle
    (created, pending, running, passed or failed, destroyed), the first error it
    saw, the arguments it completed with, a table of listeners, and the jobs it
    deferred to the host's queue. */
module Tasks {
  import opened Values
  import opened Emitter

  // ---------------------------------------------------------------------------
  // Status and the status getters

  datatype Status = Created | Pending | Running | Passed | Failed | Destroyed

  /** `started`: execution has been triggered. */
  predicate Started(s: Status) { s != Created }

  /** `exited`: execution is over, successfully or not, or the task is gone. */
  predicate Exited(s: Status) { s == Failed || s == Passed || s == Destroyed }

  /** `completed`: execution is over and its outcome is known. */
  predicate Completed(s: Status) { s == Failed || s == Passed }

  /** The three getters are nested: completed tasks have exited, exited tasks
      have started, and the only exited status that is not a completion is
      `destroyed`. */
  lemma StatusHierarchy(s: Status)
    ensures Completed(s) ==> Exited(s)
    ensures Exited(s) ==> Started(s)
    ensures (Exited(s) && !Completed(s)) <==> s == Destroyed
    ensures !Started(s) <==> s == Created
  {
  }

  // ---------------------------------------------------------------------------
  // Events, listeners, deferred jobs

  datatype TaskEvent =
    | ErrorEvent | PendingEvent | RunningEvent | FailedEvent | PassedEvent
    | CompletedEvent | DoneEvent | DestroyedEvent

  /** What a listener does when called: a caller-supplied callback, identified by
      a token, or the done-handler that `destroy` registers. */
  datatype Handler = Callback(k: nat) | DestroyOnDone

  type TaskListener = Listener<TaskEvent, Handler>

  /** A job waiting on the host's queue. */
  datatype Job =
    | FireJob                          // run() defers fire()
    | DeliverResult(k: nat)            // onceDone/whenDone on a completed task
    | DestroyJob                       // destroy() on a completed task
    | CompletionJob(args: seq<Value>)  // a completion escaping the try/catch scope

  datatype Emission = Emission(event: TaskEvent, args: seq<Value>)

  /** A call of a caller-supplied callback with the arguments it received. */
  datatype Invocation = Invocation(k: nat, args: seq<Value>)

  /** What the wrapped method does when it is fired: the argument lists it passes
      to its completion callback while it runs (zero, one or several), and the
      value it throws afterwards, if any. Completions made later, outside the
      call, are the `CompleteMethod` operation. */
  datatype Behaviour = Behaviour(completions: seq<seq<Value>>, throws: Option<Value>)

  const InvalidRunError := MakeError("invalid run status")
  const NoMethodError := MakeError("no method was defined")
  const ExcessCompletionError := MakeError("completed more than once")

  function StatusEvent(failed: bool): TaskEvent {
    if failed then FailedEvent else PassedEvent
  }

  /** The callback invocations an emission with `args` makes, in order; the
      destroy handler is not a callback. */
  function Calls(ls: seq<TaskListener>, args: seq<Value>): (r: seq<Invocation>)
    ensures |r| <= |ls|
  {
    if ls == [] then []
    else
      var last := ls[|ls| - 1];
      Calls(ls[..|ls| - 1], args) + (if last.handler.Callback? then [Invocation(last.handler.k, args)] else [])
  }

  lemma {:induction false} CallsAppend(a: seq<TaskListener>, b: seq<TaskListener>, args: seq<Value>)
    ensures Calls(a + b, args) == Calls(a, args) + Calls(b, args)
    decreases |b|
  {
    if b == [] {
      assert a + b == a;
    } else {
      var b' := b[..|b| - 1];
      assert (a + b)[..|a + b| - 1] == a + b';
      CallsAppend(a, b', args);
    }
  }

  lemma CallsSnoc(a: seq<TaskListener>, l: TaskListener, args: seq<Value>)
    ensures Calls(a + [l], args)
         == Calls(a, args) + (if l.handler.Callback? then [Invocation(l.handler.k, args)] else [])
  {
    assert (a + [l])[..|a|] == a;
  }

  /** Some listener of the list is the destroy handler. */
  predicate HasDestroyer(ls: seq<TaskListener>) {
    ls != [] && (ls[0].handler.DestroyOnDone? || HasDestroyer(ls[1..]))
  }

  /** Every destroy handler of the list waits, once, on `done`. */
  predicate DestroyersOnDone(ls: seq<TaskListener>) {
    ls == [] ||
    ((ls[0].handler.DestroyOnDone? ==> ls[0].event == DoneEvent && ls[0].once)
     && DestroyersOnDone(ls[1..]))
  }

  lemma {:induction false} HasDestroyerAppend(a: seq<TaskListener>, b: seq<TaskListener>)
    ensures HasDestroyer(a + b) == (HasDestroyer(a) || HasDestroyer(b))
  {
    if a != [] {
      assert (a + b)[0] == a[0] && (a + b)[1..] == a[1..] + b;
      HasDestroyerAppend(a[1..], b);
    } else {
      assert a + b == b;
    }
  }

  lemma {:induction false} DestroyersOnDoneAppend(a: seq<TaskListener>, b: seq<TaskListener>)
    ensures DestroyersOnDone(a + b) == (DestroyersOnDone(a) && DestroyersOnDone(b))
  {
    if a != [] {
      assert (a + b)[0] == a[0] && (a + b)[1..] == a[1..] + b;
      DestroyersOnDoneAppend(a[1..], b);
    } else {
      assert a + b == b;
    }
  }

  /** An emission keeps the table well formed; unless it is an emission of
      `done`, it keeps every destroy handler, and an emission of `done` reaches
      every destroy handler there is. */
  lemma {:induction false} EmitKeepsDestroyers(ls: seq<TaskListener>, e: TaskEvent)
    requires DestroyersOnDone(ls)
    ensures DestroyersOnDone(AfterEmit(ls, e))
    ensures e != DoneEvent ==> HasDestroyer(AfterEmit(ls, e)) == HasDestroyer(ls)
    ensures HasDestroyer(Matching(ls, DoneEvent)) == HasDestroyer(ls)
  {
    if ls != [] {
      EmitKeepsDestroyers(ls[1..], e);
      var kept := if ls[0].event == e && ls[0].once then [] else [ls[0]];
      assert AfterEmit(ls, e) == kept + AfterEmit(ls[1..], e);
      DestroyersOnDoneAppend(kept, AfterEmit(ls[1..], e));
      HasDestroyerAppend(kept, AfterEmit(ls[1..], e));
      var m := if ls[0].event == DoneEvent then [ls[0]] else [];
      assert Matching(ls, DoneEvent) == m + Matching(ls[1..], DoneEvent);
      HasDestroyerAppend(m, Matching(ls[1..], DoneEvent));
    }
  }

  /** An emission of `done` leaves no destroy handler behind. */
  lemma {:induction false} DoneClearsDestroyers(ls: seq<TaskListener>)
    requires DestroyersOnDone(ls)
    ensures !HasDestroyer(AfterEmit(ls, DoneEvent))
  {
    if ls != [] {
      DoneClearsDestroyers(ls[1..]);
      var kept := if ls[0].event == DoneEvent && ls[0].once then [] else [ls[0]];
      assert AfterEmit(ls, DoneEvent) == kept + AfterEmit(ls[1..], DoneEvent);
      HasDestroyerAppend(kept, AfterEmit(ls[1..], DoneEvent));
    }
  }

  /** Whether an emission of `done` destroys the task: a destroy handler is
      waiting on `done` and the task is not destroyed yet. */
  predicate Destroys(ls: seq<TaskListener>, st: Status) {
    HasDestroyer(Matching(ls, DoneEvent)) && st != Destroyed
  }

  /** The callbacks invoked while the snapshot `s` of the `done` listeners
      runs, starting in status `st`: the callbacks in order, and, where the
      first destroy handler runs on a task not yet destroyed, the listeners `dl`
      of `destroyed`; a later destroy handler finds the task destroyed and does
      nothing. */
  function SnapshotCalls(s: seq<TaskListener>, st: Status, dl: seq<TaskListener>,
                         args: seq<Value>): seq<Invocation>
  {
    if s == [] then []
    else
      var before := s[..|s| - 1];
      var last := s[|s| - 1];
      SnapshotCalls(before, st, dl, args)
      + (match last.handler
         case Callback(k) => [Invocation(k, args)]
         case DestroyOnDone => if st != Destroyed && !HasDestroyer(before) then Calls(dl, []) else [])
  }

  /** One more listener `s[i]` of the snapshot: its calls follow those of the
      ones before it, and it is a destroy handler or one came before. */
  lemma SnapshotStep(s: seq<TaskListener>, i: nat, st: Status, dl: seq<TaskListener>, args: seq<Value>)
    requires i < |s|
    ensures SnapshotCalls(s[..i + 1], st, dl, args)
            == SnapshotCalls(s[..i], st, dl, args)
               + (match s[i].handler
                  case Callback(k) => [Invocation(k, args)]
                  case DestroyOnDone => if st != Destroyed && !HasDestroyer(s[..i]) then Calls(dl, []) else [])
    ensures HasDestroyer(s[..i + 1]) == (HasDestroyer(s[..i]) || s[i].handler.DestroyOnDone?)
  {
    assert s[..i + 1][..i] == s[..i];
    HasDestroyerAppend(s[..i], [s[i]]);
    assert s[..i] + [s[i]] == s[..i + 1];
  }

  /** The callbacks an emission of `done` with `args` invokes, given the listener
      table and status at that moment. */
  function DoneCalls(ls: seq<TaskListener>, st: Status, args: seq<Value>): seq<Invocation> {
    SnapshotCalls(Matching(ls, DoneEvent), st, Matching(AfterEmit(ls, DoneEvent), DestroyedEvent), args)
  }

  // ---------------------------------------------------------------------------
  // First error wins

  /** The error recorded after a completion with `args`, when `prev` was
      recorded before: the completion's leading argument, if it is truthy and
      nothing truthy was recorded yet. */
  function RecordError(prev: Value, args: seq<Value>): (r: Value)
    ensures Truthy(prev) ==> r == prev
    ensures !Truthy(prev) && |args| > 0 && Truthy(args[0]) ==> r == args[0]
    ensures Truthy(r) <==> Truthy(prev) || (|args| > 0 && Truthy(args[0]))
  {
    if |args| > 0 && Truthy(args[0]) && !Truthy(prev) then args[0] else prev
  }

  // ---------------------------------------------------------------------------
  // setConfig argument classification

  /** The options a configuration object may carry (`on`/`once` maps, `parent`,
      `args` and `ambi` are not modelled). The listener keys `whenDone`,
      `onceDone`, `done` and `next` each name one callback. */
  datatype TaskOptions = TaskOptions(
    name: Option<string>,
    taskMethod: Option<Behaviour>,
    destroyOnceDone: Option<bool>,
    errorOnExcessCompletions: Option<bool>,
    sync: Option<bool>,
    domain: Option<bool>,
    whenDone: Option<nat>,
    onceDone: Option<nat>,
    done: Option<nat>,
    next: Option<nat>)

  const NoOptions := TaskOptions(None, None, None, None, None, None, None, None, None, None)

  /** A `done` listener that `setConfig` registers: `whenDone` keeps it, the
      other three keys register it once. */
  datatype Registration = Registration(once: bool, k: nat)

  function Register(once: bool, k: Option<nat>): seq<Registration> {
    if k.Some? then [Registration(once, k.value)] else []
  }

  /** The listeners the options register, in the order `whenDone`, `onceDone`,
      `done`, `next`. */
  function Registrations(o: TaskOptions): seq<Registration> {
    Register(false, o.whenDone) + Register(true, o.onceDone) + Register(true, o.done) + Register(true, o.next)
  }

  /** The `done` listeners a series of registrations adds to a task that has
      not completed. */
  function DoneListeners(rs: seq<Registration>): seq<TaskListener> {
    seq(|rs|, i requires 0 <= i < |rs| => Listener(DoneEvent, rs[i].once, Callback(rs[i].k)))
  }

  /** The deliveries a series of registrations defers on a completed task. */
  function DeliveryJobs(rs: seq<Registration>): seq<Job> {
    seq(|rs|, i requires 0 <= i < |rs| => DeliverResult(rs[i].k))
  }

  /** One argument of `setConfig`, classified by its JavaScript type. */
  datatype ConfigArg =
    | NullArg                      // null or undefined: skipped
    | NameArg(name: string)        // a string: the name
    | MethodArg(behaviour: Behaviour) // a function: the method
    | ObjectArg(opts: TaskOptions) // an object: merged in
    | OtherArg                     // a number, boolean or symbol: rejected

  function Override<T>(a: Option<T>, b: Option<T>): Option<T> {
    if b.Some? then b else a
  }

  /** Merge `b` into `a`: every option `b` sets wins. */
  function Merge(a: TaskOptions, b: TaskOptions): TaskOptions {
    TaskOptions(
      Override(a.name, b.name), Override(a.taskMethod, b.taskMethod),
      Override(a.destroyOnceDone, b.destroyOnceDone),
      Override(a.errorOnExcessCompletions, b.errorOnExcessCompletions),
      Override(a.sync, b.sync), Override(a.domain, b.domain),
      Override(a.whenDone, b.whenDone), Override(a.onceDone, b.onceDone),
      Override(a.done, b.done), Override(a.next, b.next))
  }

  /** The options after one more argument, or None when its type is rejected. */
  function Absorb(acc: TaskOptions, arg: ConfigArg): Option<TaskOptions> {
    match arg
    case NullArg => Some(acc)
    case NameArg(n) => Some(acc.(name := Some(n)))
    case MethodArg(m) => Some(acc.(taskMethod := Some(m)))
    case ObjectArg(o) => Some(Merge(acc, o))
    case OtherArg => None
  }

  function ClassifyFrom(acc: TaskOptions, args: seq<ConfigArg>): Option<TaskOptions>
    decreases |args|
  {
    if args == [] then Some(acc)
    else
      match Absorb(acc, args[0])
      case None => None
      case Some(acc') => ClassifyFrom(acc', args[1..])
  }

  /** The options that `setConfig(...args)` extracts, or None when it throws. */
  function Classify(args: seq<ConfigArg>): Option<TaskOptions> {
    ClassifyFrom(NoOptions, args)
  }

  lemma {:induction false} ClassifyFromRejects(acc: TaskOptions, args: seq<ConfigArg>)
    ensures ClassifyFrom(acc, args).None? <==> exists i | 0 <= i < |args| :: args[i].OtherArg?
    decreases |args|
  {
    if args != [] {
      if !args[0].OtherArg? {
        ClassifyFromRejects(Absorb(acc, args[0]).value, args[1..]);
        assert forall i | 1 <= i < |args| :: args[i] == args[1..][i - 1];
      }
    }
  }

  /** `setConfig` throws exactly when some argument has a rejected type. */
  lemma ClassifyRejects(args: seq<ConfigArg>)
    ensures Classify(args).None? <==> exists i | 0 <= i < |args| :: args[i].OtherArg?
  {
    ClassifyFromRejects(NoOptions, args);
  }

  lemma {:induction false} ClassifyFromAppend(acc: TaskOptions, args: seq<ConfigArg>, arg: ConfigArg)
    ensures ClassifyFrom(acc, args + [arg])
         == (match ClassifyFrom(acc, args) case None => None case Some(o) => Absorb(o, arg))
    decreases |args|
  {
    if args == [] {
      assert args + [arg] == [arg];
    } else {
      assert (args + [arg])[0] == args[0] && (args + [arg])[1..] == args[1..] + [arg];
      match Absorb(acc, args[0])
      case None =>
      case Some(acc') => ClassifyFromAppend(acc', args[1..], arg);
    }
  }

  /** Arguments are applied left to right: a later name replaces an earlier one,
      and a null argument changes nothing. */
  lemma LaterArgumentsWin(args: seq<ConfigArg>, n: string)
    requires Classify(args).Some?
    ensures Classify(args + [NameArg(n)]) == Some(Classify(args).value.(name := Some(n)))
    ensures Classify(args + [NullArg]) == Classify(args)
  {
    ClassifyFromAppend(NoOptions, args, NameArg(n));
    ClassifyFromAppend(NoOptions, args, NullArg);
  }

  /** The `forEach` over the arguments of `setConfig`. */
  method ExtractOptions(args: seq<ConfigArg>) returns (r: Option<TaskOptions>)
    ensures r == Classify(args)
  {
    var opts := NoOptions;
    var i := 0;
    while i < |args|
      invariant 0 <= i <= |args|
      invariant ClassifyFrom(opts, args[i..]) == Classify(args)
    {
      assert args[i..][0] == args[i] && args[i..][1..] == args[i + 1..];
      match args[i] {
        case NullArg =>
        case NameArg(n) => opts := opts.(name := Some(n));
        case MethodArg(m) => opts := opts.(taskMethod := Some(m));
        case ObjectArg(o) => opts := Merge(opts, o);
        case OtherArg => return None;
      }
      i := i + 1;
    }
    return Some(opts);
  }

  /** What the first completion emits after `em0`, given the recorded error
      and result and whether a destroy handler was waiting: `failed` or
      `passed` with the error, `completed` and `done` with the result, then
      `destroyed` if the task was destroyed. */
  function FirstEmissions(err: Value, res: seq<Value>, destroyed: bool, em0: seq<Emission>): seq<Emission> {
    em0 + [Emission(StatusEvent(Truthy(err)), [err])]
    + [Emission(CompletedEvent, res)] + [Emission(DoneEvent, res)]
    + (if destroyed then [Emission(DestroyedEvent, [])] else [])
  }

  // ---------------------------------------------------------------------------
  // The Task object

  class Task {
    // state
    var status: Status
    var error: Value
    var result: Option<seq<Value>>
    /** `state.taskDomain` is set: the fault-isolation boundary is active. */
    var taskDomain: bool
    /** The completion callback built by `fire` still refers to the domain. */
    var completerHoldsDomain: bool
    // configuration
    var name: Option<string>
    var taskMethod: Option<Behaviour>
    var destroyOnceDone: bool
    var errorOnExcessCompletions: bool
    var sync: bool
    var useDomain: bool
    /** Whether the host provides domains at all. */
    const hostHasDomains: bool
    // the emitter
    var listeners: seq<TaskListener>
    var emitted: seq<Emission>
    var invoked: seq<Invocation>
    /** Errors thrown by the method that no handler caught. */
    var uncaught: seq<Value>
    // the host's queue of deferred jobs
    var queue: seq<Job>

    /** Destroy handlers only ever wait, once, on `done`. */
    ghost predicate WellFormed()
      reads this
    {
      DestroyersOnDone(listeners)
    }

    /** A completed task has no destroy handler still waiting: the one it had ran
        when its completion was emitted. */
    ghost predicate Valid()
      reads this
    {
      WellFormed() && (Completed(status) ==> !HasDestroyer(listeners))
    }

    /** A new task with the default configuration. */
    constructor (hostHasDomains: bool)
      ensures Valid()
      ensures status == Created && error == Null && result == None
      ensures !taskDomain && !completerHoldsDomain
      ensures name == None && taskMethod == None
      ensures destroyOnceDone && errorOnExcessCompletions && !sync && useDomain
      ensures listeners == [] && emitted == [] && invoked == [] && uncaught == [] && queue == []
      ensures this.hostHasDomains == hostHasDomains
    {
      status, error, result := Created, Null, None;
      taskDomain, completerHoldsDomain := false, false;
      name, taskMethod := None, None;
      destroyOnceDone, errorOnExcessCompletions, sync, useDomain := true, true, false, true;
      this.hostHasDomains := hostHasDomains;
      listeners, emitted, invoked, uncaught, queue := [], [], [], [], [];
    }

    /** Emit an event that is not forwarded to `done`: its listeners are called
        in order and its one-shot listeners are removed. */
    method Emit(e: TaskEvent, args: seq<Value>)
      requires WellFormed() && e != DoneEvent && e != CompletedEvent && e != ErrorEvent
      modifies this`listeners, this`emitted, this`invoked
      ensures WellFormed()
      ensures HasDestroyer(listeners) == HasDestroyer(old(listeners))
      ensures emitted == old(emitted) + [Emission(e, args)]
      ensures listeners == AfterEmit(old(listeners), e)
      ensures invoked == old(invoked) + Calls(Matching(old(listeners), e), args)
    {
      var snapshot := Matching(listeners, e);
      emitted := emitted + [Emission(e, args)];
      EmitKeepsDestroyers(listeners, e);
      listeners := AfterEmit(listeners, e);
      invoked := invoked + Calls(snapshot, args);
    }

    method ClearDomain()
      modifies this`taskDomain
      ensures !taskDomain
    {
      taskDomain := false;
    }

    /** The handler `destroy` registers: does nothing on a destroyed task,
        otherwise marks it destroyed, emits `destroyed`, removes every listener
        and clears the domain. */
    method DestroyHandler()
      requires WellFormed()
      modifies this`listeners, this`emitted, this`invoked, this`status, this`taskDomain
      ensures WellFormed()
      ensures old(status) == Destroyed ==>
                status == Destroyed && listeners == old(listeners) && emitted == old(emitted)
                && invoked == old(invoked) && taskDomain == old(taskDomain)
      ensures old(status) != Destroyed ==>
                status == Destroyed && listeners == [] && !taskDomain
                && emitted == old(emitted) + [Emission(DestroyedEvent, [])]
                && invoked == old(invoked) + Calls(Matching(old(listeners), DestroyedEvent), [])
    {
      if status == Destroyed {
        return;
      }
      status := Destroyed;
      Emit(DestroyedEvent, []);
      listeners := [];
      ClearDomain();
    }

    /** One listener of `done` runs: a callback is invoked; the destroy handler
        destroys the task unless it is destroyed already. */
    method CallDoneListener(l: TaskListener, args: seq<Value>)
      requires WellFormed()
      modifies this`listeners, this`emitted, this`invoked, this`status, this`taskDomain
      ensures WellFormed()
      ensures if l.handler.DestroyOnDone? && old(status) != Destroyed then
                status == Destroyed && listeners == [] && !taskDomain
                && emitted == old(emitted) + [Emission(DestroyedEvent, [])]
                && invoked == old(invoked) + Calls(Matching(old(listeners), DestroyedEvent), [])
              else
                status == old(status) && listeners == old(listeners) && taskDomain == old(taskDomain)
                && emitted == old(emitted)
                && invoked == old(invoked) + (if l.handler.Callback? then [Invocation(l.handler.k, args)] else [])
    {
      if l.handler.Callback? {
        invoked := invoked + [Invocation(l.handler.k, args)];
      } else {
        DestroyHandler();
      }
    }

    /** The emitter's loop over the snapshot `s` of the `done` listeners: each
        runs in turn; the first destroy handler destroys the task (unless it is
        destroyed already), and any later one finds it destroyed. */
    method CallDoneListeners(s: seq<TaskListener>, args: seq<Value>)
      requires WellFormed()
      modifies this`listeners, this`emitted, this`invoked, this`status, this`taskDomain
      ensures WellFormed()
      ensures invoked == old(invoked) + SnapshotCalls(s, old(status), Matching(old(listeners), DestroyedEvent), args)
      ensures AfterDone(HasDestroyer(s) && old(status) != Destroyed,
                        old(status), old(listeners), old(taskDomain), old(emitted))
    {
      ghost var dl := Matching(listeners, DestroyedEvent);
      ghost var inv0, st0, ls0, td0, em0 := invoked, status, listeners, taskDomain, emitted;
      var i := 0;
      while i < |s|
        invariant 0 <= i <= |s|
        invariant WellFormed()
        invariant invoked == inv0 + SnapshotCalls(s[..i], st0, dl, args)
        invariant AfterDone(HasDestroyer(s[..i]) && st0 != Destroyed, st0, ls0, td0, em0)
      {
        SnapshotStep(s, i, st0, dl, args);
        CallDoneListener(s[i], args);
        i := i + 1;
      }
      assert s[..i] == s;
    }

    /** The state after the `done` listeners ran, from the status, listeners,
        domain flag and emissions before them, according to whether a destroy
        handler destroyed the task. */
    ghost predicate AfterDone(destroyed: bool, st0: Status, ls0: seq<TaskListener>, td0: bool,
                              em0: seq<Emission>)
      reads this
    {
      if destroyed then
        status == Destroyed && listeners == [] && !taskDomain
        && emitted == em0 + [Emission(DestroyedEvent, [])]
      else
        status == st0 && listeners == ls0 && taskDomain == td0 && emitted == em0
    }

    /** Emit `done`: its one-shot listeners are removed, then the snapshot of
        its listeners runs. */
    method EmitDone(args: seq<Value>)
      requires WellFormed()
      modifies this`listeners, this`emitted, this`invoked, this`status, this`taskDomain
      ensures WellFormed() && !HasDestroyer(listeners)
      ensures invoked == old(invoked) + DoneCalls(old(listeners), old(status), args)
      ensures AfterDone(Destroys(old(listeners), old(status)), old(status), AfterEmit(old(listeners), DoneEvent),
                        old(taskDomain), old(emitted) + [Emission(DoneEvent, args)])
    {
      var s := Matching(listeners, DoneEvent);
      EmitKeepsDestroyers(listeners, DoneEvent);
      DoneClearsDestroyers(listeners);
      emitted := emitted + [Emission(DoneEvent, args)];
      listeners := AfterEmit(listeners, DoneEvent);
      CallDoneListeners(s, args);
    }

    /** Emit `completed` or `error`; the emitter forwards both to `done` before
        their own listeners run. */
    method EmitForwarded(e: TaskEvent, args: seq<Value>)
      requires WellFormed() && (e == CompletedEvent || e == ErrorEvent)
      modifies this`listeners, this`emitted, this`invoked, this`status, this`taskDomain
      ensures WellFormed() && !HasDestroyer(listeners)
      ensures invoked == old(invoked) + DoneCalls(AfterEmit(old(listeners), e), old(status), args)
                                      + Calls(Matching(old(listeners), e), args)
      ensures AfterDone(Destroys(old(listeners), old(status)), old(status),
                        AfterEmit(AfterEmit(old(listeners), e), DoneEvent), old(taskDomain),
                        old(emitted) + [Emission(e, args)] + [Emission(DoneEvent, args)])
    {
      var snapshot := Matching(listeners, e);
      emitted := emitted + [Emission(e, args)];
      EmitKeepsDestroyers(listeners, e);
      OtherEventsUntouched(listeners, e, DoneEvent);
      listeners := AfterEmit(listeners, e);
      EmitDone(args);
      invoked := invoked + Calls(snapshot, args);
    }

    /** Record `failed` or `passed` and emit it with the error. */
    method EmitStatus(failed: bool, e: Value)
      requires WellFormed() && !Completed(status)
      modifies this`listeners, this`emitted, this`invoked, this`status
      ensures WellFormed() && HasDestroyer(listeners) == HasDestroyer(old(listeners))
      ensures status == (if failed then Failed else Passed) && Destroys(listeners, status) == HasDestroyer(listeners)
      ensures emitted == old(emitted) + [Emission(StatusEvent(failed), [e])]
      ensures listeners == AfterEmit(old(listeners), StatusEvent(failed))
      ensures invoked == old(invoked) + Calls(Matching(old(listeners), StatusEvent(failed)), [e])
    {
      status := if failed then Failed else Passed;
      Emit(StatusEvent(failed), [e]);
      EmitKeepsDestroyers(listeners, DoneEvent);
    }

    /** The first-time branch of `finish`, up to the optional destroy: record
        `failed` or `passed` by the recorded error and emit it with the error,
        emit `completed` (forwarded to `done`) with the result or no arguments,
        and drop the error. A destroy handler already waiting destroys the task
        during the `done` emission. */
    method FinishFirst()
      requires Valid() && !Exited(status)
      modifies this`listeners, this`emitted, this`invoked, this`status, this`taskDomain, this`error
      ensures WellFormed() && !HasDestroyer(listeners) && (taskDomain ==> old(taskDomain))
      ensures FirstOutcome(old(error), old(result).GetOr([]), old(listeners), old(emitted))
      ensures var l2 := AfterEmit(old(listeners), StatusEvent(Truthy(old(error))));
              && invoked == old(invoked) + Calls(Matching(old(listeners), StatusEvent(Truthy(old(error)))), [old(error)])
                            + DoneCalls(AfterEmit(l2, CompletedEvent), if Truthy(old(error)) then Failed else Passed,
                                        old(result).GetOr([]))
                            + Calls(Matching(l2, CompletedEvent), old(result).GetOr([]))
              && listeners == (if HasDestroyer(old(listeners)) then []
                               else AfterEmit(AfterEmit(l2, CompletedEvent), DoneEvent))
    {
      var e := error;
      var failed := Truthy(e);
      EmitStatus(failed, e);
      ghost var l2, inv1 := listeners, invoked;
      var args := result.GetOr([]);
      EmitKeepsDestroyers(listeners, DoneEvent);
      EmitForwarded(CompletedEvent, args);
      error := Null;
    }

    /** The outcome of the first completion, given the error and the result
        recorded and the listeners and emissions before it: the error is dropped,
        the status is `failed` or `passed` by the error (or `destroyed` when a
        destroy handler was waiting), and `failed`/`passed`, `completed` and `done`
        were emitted in this order, then `destroyed` if the task was destroyed. */
    ghost predicate FirstOutcome(err0: Value, res0: seq<Value>, ls0: seq<TaskListener>, em0: seq<Emission>)
      reads this
    {
      var failed := Truthy(err0);
      var gone := HasDestroyer(ls0);
      && error == Null
      && status == (if gone then Destroyed else if failed then Failed else Passed)
      && emitted == FirstEmissions(err0, res0, gone, em0)
    }

    /** The outcome of a completion of an exited task: the status stays and an
        excess-completion error is emitted (and forwarded to `done`) when
        configured to. */
    ghost predicate ExcessOutcome(st0: Status, em0: seq<Emission>)
      reads this
    {
      && status == st0
      && emitted == (if errorOnExcessCompletions
                     then em0 + [Emission(ErrorEvent, [ExcessCompletionError])]
                          + [Emission(DoneEvent, [ExcessCompletionError])]
                     else em0)
    }

    /** `finish`: the first time, see `FinishFirst`; any later time, emit an
        excess-completion error (forwarded to `done`) when configured to. */
    method Finish()
      requires Valid()
      modifies this`listeners, this`emitted, this`invoked, this`status, this`taskDomain,
               this`error, this`queue
      ensures Valid()
      ensures result == old(result) && (taskDomain ==> old(taskDomain))
      ensures !Exited(old(status)) ==>
                && FirstOutcome(old(error), old(result).GetOr([]), old(listeners), old(emitted))
                && queue == old(queue) + (if destroyOnceDone && !HasDestroyer(old(listeners))
                                          then [DestroyJob] else [])
      ensures Exited(old(status)) ==>
                && ExcessOutcome(old(status), old(emitted))
                && error == old(error) && queue == old(queue) && taskDomain == old(taskDomain)
    {
      if !Exited(status) {
        FinishFirst();
        if destroyOnceDone {
          Destroy();
        }
      } else if errorOnExcessCompletions {
        EmitKeepsDestroyers(listeners, DoneEvent);
        EmitForwarded(ErrorEvent, [ExcessCompletionError]);
      }
    }

    /** `destroy`: the destroy handler runs once the task is done; on a task that
        has already completed it is deferred to the queue. */
    method Destroy()
      requires WellFormed() && (Completed(status) ==> !HasDestroyer(listeners))
      modifies this`listeners, this`queue
      ensures Valid()
      ensures Completed(status) ==> queue == old(queue) + [DestroyJob] && listeners == old(listeners)
      ensures !Completed(status) ==>
                queue == old(queue) && listeners == old(listeners) + [Listener(DoneEvent, true, DestroyOnDone)]
    {
      if Completed(status) {
        queue := queue + [DestroyJob];
      } else {
        DestroyersOnDoneAppend(listeners, [Listener(DoneEvent, true, DestroyOnDone)]);
        listeners := listeners + [Listener(DoneEvent, true, DestroyOnDone)];
      }
    }

    /** The outcome of `itemCompletionCallback(...args)` from status `st0`, error
        `err0`, result `res0`, listeners `ls0`, emissions `em0` and queue `q0`:
        before the task exited, the arguments (if any) become the result, the
        first truthy error is kept, the task completes as `FirstOutcome` says
        and a destroy is deferred when configured and none was waiting; once it
        has exited, the status and result stay, only an error not yet recorded
        is kept, and the excess completion is reported as `ExcessOutcome` says. */
    ghost predicate CompletionOutcome(args: seq<Value>, st0: Status, err0: Value, res0: Option<seq<Value>>,
                                      ls0: seq<TaskListener>, em0: seq<Emission>, q0: seq<Job>)
      reads this
    {
      if !Exited(st0) then
        var res := if |args| != 0 then Some(args) else res0;
        && result == res
        && FirstOutcome(RecordError(err0, args), res.GetOr([]), ls0, em0)
        && queue == q0 + (if destroyOnceDone && !HasDestroyer(ls0) then [DestroyJob] else [])
      else
        && ExcessOutcome(st0, em0)
        && result == res0 && queue == q0 && error == RecordError(err0, args)
    }

    /** `itemCompletionCallback`: keep the first truthy error, store the
        arguments as the result while not exited (and only if there are any),
        then finish. */
    method ItemCompletionCallback(args: seq<Value>)
      requires Valid()
      modifies this`listeners, this`emitted, this`invoked, this`status, this`taskDomain,
               this`error, this`queue, this`result
      ensures Valid()
      ensures old(emitted) <= emitted
      ensures taskDomain ==> old(taskDomain)
      ensures CompletionOutcome(args, old(status), old(error), old(result), old(listeners), old(emitted), old(queue))
    {
      error := RecordError(error, args);
      if !Exited(status) && |args| != 0 {
        result := Some(args);
      }
      Finish();
    }

    /** The completion callback handed to the method: with the domain still held
        or in sync mode it drops the domain and completes at once; otherwise it
        defers the completion to the queue. */
    method CompleteMethod(args: seq<Value>)
      requires Valid()
      modifies this`listeners, this`emitted, this`invoked, this`status, this`taskDomain,
               this`error, this`queue, this`result, this`completerHoldsDomain
      ensures Valid()
      ensures old(emitted) <= emitted
      ensures (taskDomain ==> old(taskDomain)) && (completerHoldsDomain ==> old(completerHoldsDomain))
      ensures !(sync || old(completerHoldsDomain)) ==>
                queue == old(queue) + [CompletionJob(args)] && status == old(status)
                && result == old(result) && error == old(error) && emitted == old(emitted)
                && listeners == old(listeners)
                && completerHoldsDomain == old(completerHoldsDomain) && taskDomain == old(taskDomain)
      ensures sync || old(completerHoldsDomain) ==>
                && !completerHoldsDomain && !taskDomain
                && CompletionOutcome(args, old(status), old(error), old(result), old(listeners),
                                     old(emitted), old(queue))
    {
      if sync || completerHoldsDomain {
        ClearDomain();
        completerHoldsDomain := false;
        ItemCompletionCallback(args);
      } else {
        queue := queue + [CompletionJob(args)];
      }
    }

    /** An error raised out of band while the domain is active goes to the
        completion path; without an active domain nothing catches it here. */
    method OutOfBandError(e: Value)
      requires Valid()
      modifies this`listeners, this`emitted, this`invoked, this`status, this`taskDomain,
               this`error, this`queue, this`result
      ensures Valid()
      ensures !old(taskDomain) ==>
                emitted == old(emitted) && status == old(status) && error == old(error)
                && result == old(result) && queue == old(queue) && listeners == old(listeners)
      ensures old(taskDomain) ==>
                CompletionOutcome([e], old(status), old(error), old(result), old(listeners), old(emitted), old(queue))
    {
      if taskDomain {
        ItemCompletionCallback([e]);
      }
    }

    /** What the first honoured completion `c0` fixed, given the error, result,
        listeners and emissions before it: the status (`destroyed` if a destroy
        handler was waiting, else `failed` or `passed` by the first truthy
        error), the result, and the emissions of `FirstOutcome` at the head of
        everything emitted since. Later completions change none of these. */
    ghost predicate FirstHonoured(c0: seq<Value>, err0: Value, res0: Option<seq<Value>>,
                                  ls0: seq<TaskListener>, em0: seq<Emission>)
      reads this
    {
      var recorded := RecordError(err0, c0);
      var res := if |c0| != 0 then Some(c0) else res0;
      var gone := HasDestroyer(ls0);
      && status == (if gone then Destroyed else if Truthy(recorded) then Failed else Passed)
      && result == res
      && FirstEmissions(recorded, res.GetOr([]), gone, em0) <= emitted
    }

    /** The completions the method makes while it runs go to the completion
        callback, in order. */
    method RunCompletions(completions: seq<seq<Value>>, wrapped: bool)
      requires Valid() && status == Running
      requires taskDomain == wrapped && completerHoldsDomain == wrapped
      modifies this`listeners, this`emitted, this`invoked, this`status, this`taskDomain,
               this`error, this`queue, this`result, this`completerHoldsDomain
      ensures Valid()
      ensures CompletionsOutcome(completions, wrapped, old(error), old(result), old(listeners), old(emitted),
                                 old(queue))
    {
      var i := 0;
      while i < |completions|
        invariant 0 <= i <= |completions|
        invariant Valid() && old(emitted) <= emitted
        invariant taskDomain ==> wrapped
        invariant !sync && !wrapped ==>
                    !completerHoldsDomain && !taskDomain && status == Running && result == old(result)
                    && error == old(error) && listeners == old(listeners) && emitted == old(emitted)
                    && queue == old(queue) + CompletionJobs(completions[..i])
        invariant (sync || wrapped) && i > 0 ==>
                    FirstHonoured(completions[0], old(error), old(result), old(listeners), old(emitted))
                    && !taskDomain
        invariant i == 0 ==>
                    status == Running && taskDomain == wrapped && completerHoldsDomain == wrapped
                    && emitted == old(emitted) && error == old(error) && result == old(result)
                    && listeners == old(listeners) && queue == old(queue)
      {
        CompleteMethod(completions[i]);
        assert completions[..i + 1] == completions[..i] + [completions[i]];
        CompletionJobsAppend(completions[..i], [completions[i]]);
        i := i + 1;
      }
      assert completions[..i] == completions;
    }

    /** The state after the method's completions, from the error, result,
        listeners, emissions and queue before them: with sync mode or a domain,
        the first completion is honoured (`FirstHonoured`) and the domain is
        gone; otherwise, or with no completion, nothing but the queue changed,
        which holds every completion deferred. */
    ghost predicate CompletionsOutcome(completions: seq<seq<Value>>, wrapped: bool, err0: Value,
                                       res0: Option<seq<Value>>, ls0: seq<TaskListener>, em0: seq<Emission>,
                                       q0: seq<Job>)
      reads this
    {
      && em0 <= emitted
      && (taskDomain ==> wrapped)
      && if (sync || wrapped) && completions != [] then
           FirstHonoured(completions[0], err0, res0, ls0, em0) && !taskDomain
         else
           && status == Running && result == res0 && error == err0 && listeners == ls0 && emitted == em0
           && taskDomain == wrapped && completerHoldsDomain == wrapped
           && queue == q0 + CompletionJobs(completions)
    }

    /** The method runs: each completion it makes while running goes to the
        completion callback, in order; an error it throws afterwards goes to the
        completion path, unless an earlier completion tore down the domain that
        was to catch it, in which case nothing catches it. */
    method InvokeMethod(behaviour: Behaviour, wrapped: bool)
      requires Valid() && status == Running
      requires taskDomain == wrapped && completerHoldsDomain == wrapped
      modifies this`listeners, this`emitted, this`invoked, this`status, this`taskDomain,
               this`error, this`queue, this`result, this`completerHoldsDomain, this`uncaught
      ensures Valid()
      ensures MethodOutcome(behaviour, wrapped, old(error), old(result), old(listeners), old(emitted),
                            old(queue), old(uncaught))
    {
      RunCompletions(behaviour.completions, wrapped);
      if behaviour.throws.Some? {
        var e := behaviour.throws.value;
        if wrapped && !taskDomain {
          // the domain was torn down by an earlier completion: the error escapes
          uncaught := uncaught + [e];
        } else {
          ItemCompletionCallback([e]);
        }
      }
    }

    /** What running the method `b` leads to, from the error, result, listeners,
        emissions, queue and uncaught errors before it, when the domain was
        (`wrapped`) or was not set up. With sync mode or a domain, the first
        completion is honoured and fixes the outcome (`FirstHonoured`), and the
        domain is gone. Otherwise, or when the method never completes, the task
        is still running with every completion deferred to the queue, unless the
        method throws: the thrown error then completes the task. A throw after a
        completion that tore down the domain escapes uncaught. */
    ghost predicate MethodOutcome(b: Behaviour, wrapped: bool, err0: Value, res0: Option<seq<Value>>,
                                  ls0: seq<TaskListener>, em0: seq<Emission>, q0: seq<Job>, unc0: seq<Value>)
      reads this
    {
      && em0 <= emitted
      && (taskDomain ==> wrapped)
      && (if (sync || wrapped) && b.completions != [] then
            FirstHonoured(b.completions[0], err0, res0, ls0, em0) && !taskDomain
          else if b.throws.None? then
            && status == Running && result == res0 && error == err0 && emitted == em0 && taskDomain == wrapped
            && queue == q0 + CompletionJobs(b.completions)
          else
            CompletionOutcome([b.throws.value], Running, err0, res0, ls0, em0, q0 + CompletionJobs(b.completions)))
      && uncaught == unc0 + (if wrapped && b.completions != [] && b.throws.Some? then [b.throws.value] else [])
    }

    /** What `fire` leads to from the method `m`, the domain flags `td0` and
        `ud0` and the state before it: without a method, an error is emitted
        (and forwarded to `done`) and nothing else but the destroy that `done`
        may trigger happens; with one, the domain is set up if wanted and
        available, `running` is emitted, and the method runs as `MethodOutcome`
        says. */
    ghost predicate FireOutcome(m: Option<Behaviour>, td0: bool, ud0: bool, st0: Status, err0: Value,
                                res0: Option<seq<Value>>, ls0: seq<TaskListener>, em0: seq<Emission>,
                                q0: seq<Job>, unc0: seq<Value>)
      reads this
    {
      if m.None? then
        && AfterDone(Destroys(ls0, st0), st0, AfterEmit(AfterEmit(ls0, ErrorEvent), DoneEvent), td0,
                     em0 + [Emission(ErrorEvent, [NoMethodError])] + [Emission(DoneEvent, [NoMethodError])])
        && error == err0 && result == res0 && queue == q0 && uncaught == unc0
      else
        MethodOutcome(m.value, td0 || (ud0 && hostHasDomains), err0, res0, AfterEmit(ls0, RunningEvent),
                      em0 + [Emission(RunningEvent, [])], q0, unc0)
    }

    /** `fire`: without a method, report an error and stay put; otherwise set up
        the domain if wanted and available, move to `running`, announce it, and
        only then invoke the method. */
    method Fire()
      requires Valid()
      modifies this`listeners, this`emitted, this`invoked, this`status, this`taskDomain,
               this`error, this`queue, this`result, this`completerHoldsDomain, this`uncaught
      ensures Valid()
      ensures FireOutcome(old(taskMethod), old(taskDomain), old(useDomain), old(status), old(error),
                          old(result), old(listeners), old(emitted), old(queue), old(uncaught))
    {
      if taskMethod.None? {
        EmitKeepsDestroyers(listeners, DoneEvent);
        EmitForwarded(ErrorEvent, [NoMethodError]);
        return;
      }
      var behaviour := taskMethod.value;
      taskDomain := taskDomain || (useDomain && hostHasDomains);
      completerHoldsDomain := taskDomain;
      var wrapped := taskDomain;
      status := Running;
      Emit(RunningEvent, []);
      assert emitted == old(emitted) + [Emission(RunningEvent, [])];
      assert wrapped == (old(taskDomain) || (old(useDomain) && hostHasDomains));
      InvokeMethod(behaviour, wrapped);
    }

    /** `run`: only from `created`; report an error from any other status and
        change nothing else; otherwise move to `pending`, announce it and defer
        `fire` to the queue. */
    method Run()
      requires Valid()
      modifies this`listeners, this`emitted, this`invoked, this`status, this`taskDomain, this`queue
      ensures Valid()
      ensures old(emitted) <= emitted
      ensures old(status) != Created ==>
                |emitted| > |old(emitted)|
                && emitted[|old(emitted)|] == Emission(ErrorEvent, [InvalidRunError])
                && queue == old(queue)
                && status == (if Destroys(old(listeners), old(status)) then Destroyed else old(status))
      ensures old(status) == Created ==>
                status == Pending && queue == old(queue) + [FireJob]
                && emitted == old(emitted) + [Emission(PendingEvent, [])]
                && listeners == AfterEmit(old(listeners), PendingEvent)
                && invoked == old(invoked) + Calls(Matching(old(listeners), PendingEvent), [])
    {
      if status != Created {
        EmitForwarded(ErrorEvent, [InvalidRunError]);
        return;
      }
      status := Pending;
      Emit(PendingEvent, []);
      queue := queue + [FireJob];
    }

    /** `onceDone`: on a completed task the listener is deferred to the queue,
        never called now; otherwise it waits, once, for `done`. */
    method OnceDone(k: nat)
      requires Valid()
      modifies this`listeners, this`queue
      ensures Valid()
      ensures Completed(status) ==> queue == old(queue) + [DeliverResult(k)] && listeners == old(listeners)
      ensures !Completed(status) ==>
                queue == old(queue) && listeners == old(listeners) + [Listener(DoneEvent, true, Callback(k))]
    {
      if Completed(status) {
        queue := queue + [DeliverResult(k)];
      } else {
        DestroyersOnDoneAppend(listeners, [Listener(DoneEvent, true, Callback(k))]);
        listeners := listeners + [Listener(DoneEvent, true, Callback(k))];
      }
    }

    /** `whenDone`: as `onceDone`, but the listener stays for every `done`. */
    method WhenDone(k: nat)
      requires Valid()
      modifies this`listeners, this`queue
      ensures Valid()
      ensures Completed(status) ==> queue == old(queue) + [DeliverResult(k)] && listeners == old(listeners)
      ensures !Completed(status) ==>
                queue == old(queue) && listeners == old(listeners) + [Listener(DoneEvent, false, Callback(k))]
    {
      if Completed(status) {
        queue := queue + [DeliverResult(k)];
      } else {
        DestroyersOnDoneAppend(listeners, [Listener(DoneEvent, false, Callback(k))]);
        listeners := listeners + [Listener(DoneEvent, false, Callback(k))];
      }
    }

    /** The host runs the oldest deferred job. */
    method RunNextJob() returns (ran: bool)
      requires Valid()
      modifies this
      ensures Valid()
      ensures ran <==> old(queue) != []
      ensures !ran ==> queue == old(queue) && emitted == old(emitted) && status == old(status)
      ensures ran && old(queue)[0] == FireJob ==>
                FireOutcome(old(taskMethod), old(taskDomain), old(useDomain), old(status), old(error),
                            old(result), old(listeners), old(emitted), old(queue)[1..], old(uncaught))
      ensures ran && old(queue)[0].DeliverResult? ==>
                queue == old(queue)[1..] && status == old(status) && emitted == old(emitted)
                && listeners == old(listeners)
                && invoked == old(invoked) + [Invocation(old(queue)[0].k, old(result).GetOr([]))]
      ensures ran && old(queue)[0] == DestroyJob && old(status) == Destroyed ==>
                queue == old(queue)[1..] && status == Destroyed && emitted == old(emitted)
                && listeners == old(listeners)
      ensures ran && old(queue)[0] == DestroyJob && old(status) != Destroyed ==>
                queue == old(queue)[1..] && status == Destroyed && listeners == []
                && emitted == old(emitted) + [Emission(DestroyedEvent, [])]
      ensures ran && old(queue)[0].CompletionJob? ==>
                CompletionOutcome(old(queue)[0].args, old(status), old(error), old(result), old(listeners),
                                  old(emitted), old(queue)[1..])
    {
      if queue == [] {
        return false;
      }
      var job := queue[0];
      queue := queue[1..];
      match job {
        case FireJob => Fire();
        case DeliverResult(k) => invoked := invoked + [Invocation(k, result.GetOr([]))];
        case DestroyJob => DestroyHandler();
        case CompletionJob(args) => ItemCompletionCallback(args);
      }
      return true;
    }

    /** Register the `done` listeners the options name, in order: each waits for
        `done`, or is deferred to the queue on a completed task. */
    method RegisterDone(rs: seq<Registration>)
      requires Valid()
      modifies this`listeners, this`queue
      ensures Valid()
      ensures Completed(status) ==> listeners == old(listeners) && queue == old(queue) + DeliveryJobs(rs)
      ensures !Completed(status) ==> queue == old(queue) && listeners == old(listeners) + DoneListeners(rs)
    {
      for i := 0 to |rs|
        invariant Valid()
        invariant Completed(status) ==> listeners == old(listeners) && queue == old(queue) + DeliveryJobs(rs[..i])
        invariant !Completed(status) ==> queue == old(queue) && listeners == old(listeners) + DoneListeners(rs[..i])
      {
        assert DoneListeners(rs[..i + 1]) == DoneListeners(rs[..i]) + [Listener(DoneEvent, rs[i].once, Callback(rs[i].k))];
        assert DeliveryJobs(rs[..i + 1]) == DeliveryJobs(rs[..i]) + [DeliverResult(rs[i].k)];
        if rs[i].once {
          OnceDone(rs[i].k);
        } else {
          WhenDone(rs[i].k);
        }
      }
      assert rs[..|rs|] == rs;
    }

    /** `setConfig`: classify every argument first (rejecting the call, with
        nothing applied, on an unknown type), then apply the options. */
    method SetConfig(args: seq<ConfigArg>) returns (accepted: bool)
      requires Valid()
      modifies this`listeners, this`queue, this`name, this`taskMethod, this`destroyOnceDone,
               this`errorOnExcessCompletions, this`sync, this`useDomain
      ensures Valid()
      ensures accepted <==> Classify(args).Some?
      ensures !accepted ==>
                listeners == old(listeners) && queue == old(queue) && taskMethod == old(taskMethod)
                && name == old(name) && destroyOnceDone == old(destroyOnceDone)
                && errorOnExcessCompletions == old(errorOnExcessCompletions) && sync == old(sync)
                && useDomain == old(useDomain)
      ensures accepted ==>
                var o := Classify(args).value;
                && name == Override(old(name), o.name)
                && taskMethod == Override(old(taskMethod), o.taskMethod)
                && destroyOnceDone == Override(Some(old(destroyOnceDone)), o.destroyOnceDone).value
                && errorOnExcessCompletions
                     == Override(Some(old(errorOnExcessCompletions)), o.errorOnExcessCompletions).value
                && sync == Override(Some(old(sync)), o.sync).value
                && useDomain == Override(Some(old(useDomain)), o.domain).value
                && (Completed(status) ==>
                      listeners == old(listeners) && queue == old(queue) + DeliveryJobs(Registrations(o)))
                && (!Completed(status) ==>
                      queue == old(queue) && listeners == old(listeners) + DoneListeners(Registrations(o)))
    {
      var r := ExtractOptions(args);
      if r.None? {
        return false;
      }
      var o := r.value;
      // an option left unset (null or undefined) keeps the current setting
      name, taskMethod := Override(name, o.name), Override(taskMethod, o.taskMethod);
      destroyOnceDone := Override(Some(destroyOnceDone), o.destroyOnceDone).value;
      errorOnExcessCompletions := Override(Some(errorOnExcessCompletions), o.errorOnExcessCompletions).value;
      sync := Override(Some(sync), o.sync).value;
      useDomain := Override(Some(useDomain), o.domain).value;
      RegisterDone(Registrations(o));
      return true;
    }
  }

  /** The jobs that defer a series of completions. */
  function CompletionJobs(completions: seq<seq<Value>>): seq<Job> {
    seq(|completions|, i requires 0 <= i < |completions| => CompletionJob(completions[i]))
  }

  lemma CompletionJobsAppend(a: seq<seq<Value>>, b: seq<seq<Value>>)
    ensures CompletionJobs(a + b) == CompletionJobs(a) + CompletionJobs(b)
  {
  }
}
