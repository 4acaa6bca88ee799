/** The named-event lock of `EventSystem`: a lazily filled table of
    `{locked, finished}` records, one per name, driven through `lock`/`unlock`,
    `start`/`finished`, the `onceUnlocked`/`onceFinished`/`whenFinished` gates
    and `block`/`unblock` over a list of names. */
module Events {
  import opened Emitter
  import opened Values

  // ---------------------------------------------------------------------------
  // Event names

  /** The four lock events a name emits: `name:locked`, `name:unlocked`,
      `name:started` and `name:finished`. */
  datatype Phase = Locked | Unlocked | Started | Finished

  datatype Topic = Topic(name: string, phase: Phase)

  function Suffix(p: Phase): string {
    match p
    case Locked => ":locked"
    case Unlocked => ":unlocked"
    case Started => ":started"
    case Finished => ":finished"
  }

  /** The emitter event name the source builds as `eventName + ':locked'` etc. */
  function TopicString(t: Topic): string {
    t.name + Suffix(t.phase)
  }

  /** The seventh character from the end of each suffix tells the phases apart. */
  function Marker(p: Phase): char {
    Suffix(p)[|Suffix(p)| - 7]
  }

  /** Different lock events never share an emitter event name, even when names
      contain colons: this is what lets the model key listeners by `Topic`. */
  lemma TopicStringInjective(t: Topic, u: Topic)
    requires TopicString(t) == TopicString(u)
    ensures t == u
  {
    var s := TopicString(t);
    var a, b := Suffix(t.phase), Suffix(u.phase);
    assert s[|s| - |a|..] == a && s[|s| - |b|..] == b;
    assert s[|s| - 7] == a[|a| - 7] == Marker(t.phase);
    assert s[|s| - 7] == b[|b| - 7] == Marker(u.phase);
    assert t.name == s[..|s| - |a|] == u.name;
  }

  // ---------------------------------------------------------------------------
  // Splitting a string of names: `eventNames.split(/[,\s]+/g)`

  /** A comma or a character JavaScript's `\s` class matches. */
  predicate IsSeparator(c: char) {
    var n := c as int;
    c == ',' || 9 <= n <= 13 || n == 32 || n == 0xa0 || n == 0x1680
    || 0x2000 <= n <= 0x200a || n == 0x2028 || n == 0x2029 || n == 0x202f
    || n == 0x205f || n == 0x3000 || n == 0xfeff
  }

  predicate NoSeparator(s: string) {
    forall k | 0 <= k < |s| :: !IsSeparator(s[k])
  }

  /** The first separator at or after `i`, or `|s|` when there is none. */
  function NextSeparator(s: string, i: nat): (j: nat)
    requires i <= |s|
    ensures i <= j <= |s|
    ensures forall k | i <= k < j :: !IsSeparator(s[k])
    ensures j < |s| ==> IsSeparator(s[j])
    decreases |s| - i
  {
    if i == |s| || IsSeparator(s[i]) then i else NextSeparator(s, i + 1)
  }

  /** The end of the run of separators that starts at `i`. */
  function RunEnd(s: string, i: nat): (j: nat)
    requires i <= |s|
    ensures i <= j <= |s|
    ensures forall k | i <= k < j :: IsSeparator(s[k])
    ensures j < |s| ==> !IsSeparator(s[j])
    decreases |s| - i
  {
    if i == |s| || !IsSeparator(s[i]) then i else RunEnd(s, i + 1)
  }

  /** `s.split(/[,\s]+/g)`: every maximal run of separators cuts the string once,
      so a leading or trailing run leaves an empty piece and `""` gives `[""]`. */
  function Split(s: string): (r: seq<string>)
    ensures |r| >= 1
    ensures forall p | p in r :: NoSeparator(p)
    decreases |s|
  {
    var i := NextSeparator(s, 0);
    if i == |s| then [s]
    else
      var j := RunEnd(s, i);
      assert j > i;
      [s[..i]] + Split(s[j..])
  }

  /** A string without separators is a single piece. */
  lemma SplitWhole(p: string)
    requires NoSeparator(p)
    ensures Split(p) == [p]
  {
    assert NextSeparator(p, 0) == |p|;
  }

  /** A separator-free piece, then a run of separators, then a rest that does
      not start with one: the run cuts once, whatever its length or mix. */
  lemma SplitCut(p: string, sep: string, q: string)
    requires NoSeparator(p)
    requires |sep| > 0 && forall k | 0 <= k < |sep| :: IsSeparator(sep[k])
    requires q == "" || !IsSeparator(q[0])
    ensures Split(p + sep + q) == [p] + Split(q)
  {
    var s := p + sep + q;
    assert forall k | 0 <= k < |p| :: s[k] == p[k];
    assert forall k | 0 <= k < |sep| :: s[|p| + k] == sep[k];
    var i := NextSeparator(s, 0);
    assert s[|p|] == sep[0];
    assert i == |p|;
    assert |p| + |sep| < |s| ==> s[|p| + |sep|] == q[0];
    var j := RunEnd(s, i);
    assert j == |p| + |sep|;
    assert s[..i] == p && s[j..] == q;
  }

  /** Names joined by single commas. */
  function JoinComma(ps: seq<string>): string
    requires |ps| >= 1
  {
    if |ps| == 1 then ps[0] else ps[0] + "," + JoinComma(ps[1..])
  }

  lemma JoinCommaStarts(ps: seq<string>)
    requires |ps| >= 1
    ensures |JoinComma(ps)| >= |ps[0]| && JoinComma(ps)[..|ps[0]|] == ps[0]
  {
  }

  /** Splitting undoes joining: a list of non-empty names without separators,
      written comma-separated, splits back into the same list. */
  lemma {:induction false} SplitJoin(ps: seq<string>)
    requires |ps| >= 1
    requires forall p | p in ps :: p != "" && NoSeparator(p)
    ensures Split(JoinComma(ps)) == ps
  {
    var p := ps[0];
    assert p in ps;
    if |ps| == 1 {
      assert NextSeparator(p, 0) == |p|;
    } else {
      var tail := JoinComma(ps[1..]);
      var s := p + "," + tail;
      assert s == JoinComma(ps);
      JoinCommaStarts(ps[1..]);
      assert ps[1] in ps;
      assert s[|p|] == ',';
      assert forall k | 0 <= k < |p| :: s[k] == p[k];
      var i := NextSeparator(s, 0);
      assert i == |p|;
      assert s[|p| + 1] == tail[0] == ps[1][0];
      assert RunEnd(s, i) == |p| + 1;
      assert s[..i] == p && s[|p| + 1..] == tail;
      forall q | q in ps[1..] ensures q != "" && NoSeparator(q) {
        assert q in ps;
      }
      SplitJoin(ps[1..]);
      assert ps == [p] + ps[1..];
    }
  }

  // ---------------------------------------------------------------------------
  // The per-name record

  /** `new Event(...)`: not locked, not finished. The record's `name` field is
      not modelled (see README). */
  datatype Event = Event(locked: bool, finished: bool)

  /** The record `event(name)` hands back: the stored one, or a fresh one. */
  function EventOf(records: map<string, Event>, name: string): Event {
    if name in records then records[name] else Event(false, false)
  }

  /** Creating a record lazily is unobservable: every name reads the same record
      before and after, and a second lookup returns the record the first made. */
  lemma LazyCreation(records: map<string, Event>, name: string)
    ensures forall m :: EventOf(records[name := EventOf(records, name)], m) == EventOf(records, m)
    ensures EventOf(records, name).locked ==> name in records
  {
  }
  // ---------------------------------------------------------------------------
  // The record table as written: a plain object, which inherits members

  /** Keys every plain JavaScript object answers through `Object.prototype`. */
  const InheritedNames: set<string> :=
    {"constructor", "toString", "toLocaleString", "valueOf", "hasOwnProperty",
     "isPrototypeOf", "propertyIsEnumerable", "__proto__", "__defineGetter__",
     "__defineSetter__", "__lookupGetter__", "__lookupSetter__"}

  /** What `event(name)` hands back when the table is a plain object: an own
      record, or an inherited member, which is truthy (so no record is made)
      and has no `locked` property. */
  datatype Lookup = Own(e: Event) | Inherited

  function LookupAsWritten(records: map<string, Event>, name: string): Lookup {
    if name in records then Own(records[name])
    else if name in InheritedNames then Inherited
    else Own(Event(false, false))
  }

  /** What one call of `lock(name, next)` does: take the lock, queue a retry
      on `name:unlocked`, or call itself again at once. */
  datatype LockStep = Acquire | Wait | Recurse

  /** `lock` as written: `locked === false` fails on an inherited member, and
      `onceUnlocked` then finds its `locked` falsy and runs the retry at once. */
  function LockStepAsWritten(records: map<string, Event>, name: string): LockStep {
    match LookupAsWritten(records, name)
    case Own(e) => if e.locked then Wait else Acquire
    case Inherited => Recurse
  }

  /** The step `lock` reaches after at most `fuel` nested calls, if any. */
  function LockAsWritten(records: map<string, Event>, name: string, fuel: nat): Option<LockStep>
    decreases fuel
  {
    if fuel == 0 then None
    else if LockStepAsWritten(records, name) == Recurse then LockAsWritten(records, name, fuel - 1)
    else Some(LockStepAsWritten(records, name))
  }

  /** `lock("constructor", next)` on a table without such a record never takes
      the lock and never waits: it calls itself without end. */
  lemma {:induction false} ConstructorLockNeverSettles(records: map<string, Event>, fuel: nat)
    requires "constructor" !in records
    ensures LockAsWritten(records, "constructor", fuel) == None
    decreases fuel
  {
    if fuel > 0 {
      ConstructorLockNeverSettles(records, fuel - 1);
    }
  }

  /** The intended step, on a table where every name has its own record: the
      lock is taken exactly when the name is free, and otherwise the request
      waits; it never recurses. */
  function LockStepOf(records: map<string, Event>, name: string): (r: LockStep)
    ensures r != Recurse
    ensures r == Acquire <==> !EventOf(records, name).locked
  {
    if EventOf(records, name).locked then Wait else Acquire
  }

  /** Away from the inherited keys the code as written already takes the
      intended step, after a single call. */
  lemma AsWrittenAgrees(records: map<string, Event>, name: string)
    requires name !in InheritedNames
    ensures LockAsWritten(records, name, 1) == Some(LockStepOf(records, name))
  {
  }

  // ---------------------------------------------------------------------------
  // Mutual exclusion, read off the log of emitted lock events

  /** Whether the last `:locked`/`:unlocked` event of `name` in the log is
      `:locked`, i.e. whether the log says the name is held. */
  function LockHeld(es: seq<Topic>, name: string): bool {
    if es == [] then false
    else
      var t := es[|es| - 1];
      if t.name == name && t.phase == Locked then true
      else if t.name == name && t.phase == Unlocked then false
      else LockHeld(es[..|es| - 1], name)
  }

  /** No `:locked` event is emitted for a name the log says is held. */
  predicate Exclusive(es: seq<Topic>) {
    es == [] ||
    (Exclusive(es[..|es| - 1]) &&
     (es[|es| - 1].phase == Locked ==> !LockHeld(es[..|es| - 1], es[|es| - 1].name)))
  }

  lemma LockHeldSnoc(es: seq<Topic>, t: Topic, name: string)
    ensures LockHeld(es + [t], name)
         == if t.name == name && t.phase == Locked then true
            else if t.name == name && t.phase == Unlocked then false
            else LockHeld(es, name)
  {
    assert (es + [t])[..|es|] == es;
  }

  lemma ExclusiveSnoc(es: seq<Topic>, t: Topic)
    ensures Exclusive(es + [t]) == (Exclusive(es) && (t.phase == Locked ==> !LockHeld(es, t.name)))
  {
    assert (es + [t])[..|es|] == es;
  }

  /** A log that does not say `name` is held has an `:unlocked` for it after
      every `:locked`. */
  lemma {:induction false} ReleasedSince(es: seq<Topic>, name: string, i: nat)
    requires i < |es| && es[i] == Topic(name, Locked)
    requires !LockHeld(es, name)
    ensures exists k :: i < k < |es| && es[k] == Topic(name, Unlocked)
    decreases |es|
  {
    var t := es[|es| - 1];
    if t.name == name && t.phase == Unlocked {
      assert es[|es| - 1] == Topic(name, Unlocked);
    } else {
      assert i < |es| - 1;
      ReleasedSince(es[..|es| - 1], name, i);
      var k :| i < k < |es| - 1 && es[..|es| - 1][k] == Topic(name, Unlocked);
      assert es[k] == Topic(name, Unlocked);
    }
  }

  /** Mutual exclusion: between two `:locked` events of the same name the log
      always holds an `:unlocked` event of that name. */
  lemma {:induction false} MutualExclusion(es: seq<Topic>, name: string, i: nat, j: nat)
    requires Exclusive(es)
    requires i < j < |es| && es[i] == Topic(name, Locked) && es[j] == Topic(name, Locked)
    ensures exists k :: i < k < j && es[k] == Topic(name, Unlocked)
    decreases |es|
  {
    var init := es[..|es| - 1];
    if j == |es| - 1 {
      ReleasedSince(init, name, i);
      var k :| i < k < |init| && init[k] == Topic(name, Unlocked);
      assert es[k] == Topic(name, Unlocked);
    } else {
      MutualExclusion(init, name, i, j);
      var k :| i < k < j && init[k] == Topic(name, Unlocked);
      assert es[k] == Topic(name, Unlocked);
    }
  }

  /** Every record's `locked` flag is what the log says. */
  ghost predicate LocksAgree(records: map<string, Event>, es: seq<Topic>) {
    forall n :: EventOf(records, n).locked == LockHeld(es, n)
  }

  /** Taking or releasing a lock, flag first and event second, keeps the flags
      and the log in agreement and the log exclusive; taking needs the flag off. */
  lemma LockFlip(records: map<string, Event>, es: seq<Topic>, name: string, lock: bool)
    requires LocksAgree(records, es) && Exclusive(es)
    requires lock ==> !EventOf(records, name).locked
    ensures LocksAgree(records[name := EventOf(records, name).(locked := lock)],
                       es + [Topic(name, if lock then Locked else Unlocked)])
    ensures Exclusive(es + [Topic(name, if lock then Locked else Unlocked)])
  {
    var t := Topic(name, if lock then Locked else Unlocked);
    forall n ensures EventOf(records[name := EventOf(records, name).(locked := lock)], n).locked
                     == LockHeld(es + [t], n) {
      LockHeldSnoc(es, t, n);
    }
    ExclusiveSnoc(es, t);
  }

  /** `:started` and `:finished` events leave the lock state as it is. */
  lemma OtherEventKeepsLocks(records: map<string, Event>, es: seq<Topic>, t: Topic)
    requires LocksAgree(records, es) && Exclusive(es)
    requires t.phase == Started || t.phase == Finished
    ensures LocksAgree(records, es + [t]) && Exclusive(es + [t])
  {
    forall n ensures EventOf(records, n).locked == LockHeld(es + [t], n) {
      LockHeldSnoc(es, t, n);
    }
    ExclusiveSnoc(es, t);
  }
  // ---------------------------------------------------------------------------
  // Callbacks, waiters and the `block`/`unblock` counters

  /** The callback handed to `lock` or `unlock`: the caller's own `next`, the
      closure `start` hands to `lock`, the closure `finished` hands to `unlock`,
      or the per-name closure of a `block`/`unblock` call with counter `c`. */
  datatype Cont = Resume(k: nat) | AfterStart(k: nat) | AfterFinish(k: nat) | Count(c: nat)

  /** A listener's handler: a caller's callback, or `lock`'s retry closure. */
  datatype Waiter = Notify(k: nat) | Retry(cont: Cont)

  type Entry = Listener<Topic, Waiter>

  /** The `done`/`total` pair one `block` or `unblock` call shares between its
      per-name closures, and the `next` they call at the end. */
  datatype Counter = Counter(done: nat, total: nat, next: nat)

  /** An invocation of a callback, with an error argument or without. */
  datatype Call = Call(k: nat, failed: bool)

  /** The one-shot `name:unlocked` listener with which a refused `lock` retries. */
  function Waiting(name: string, cont: Cont): Entry {
    Listener(Topic(name, Unlocked), true, Retry(cont))
  }

  /** Retry closures are one-shot `:unlocked` listeners naming existing counters. */
  predicate WaiterOk(l: Entry, nc: nat) {
    l.handler.Retry? ==>
      l.once && l.event.phase == Unlocked && (l.handler.cont.Count? ==> l.handler.cont.c < nc)
  }

  predicate WaitersOk(ls: seq<Entry>, nc: nat) {
    forall l | l in ls :: WaiterOk(l, nc)
  }

  /** The lock requests queued on `name`, oldest first. */
  function Queue(ls: seq<Entry>, name: string): seq<Cont> {
    if ls == [] then []
    else
      (if ls[0].event == Topic(name, Unlocked) && ls[0].handler.Retry? then [ls[0].handler.cont] else [])
      + Queue(ls[1..], name)
  }

  function Tail(q: seq<Cont>): seq<Cont> {
    if q == [] then [] else q[1..]
  }

  lemma TailSnoc(q: seq<Cont>, x: Cont)
    requires q != []
    ensures Tail(q + [x]) == Tail(q) + [x]
  {
    assert (q + [x])[1..] == q[1..] + [x];
  }

  /** How many per-name closures of counter `c` wait in `ls`. */
  function Pending(ls: seq<Entry>, c: nat): nat {
    if ls == [] then 0 else (if ls[0].handler == Retry(Count(c)) then 1 else 0) + Pending(ls[1..], c)
  }

  /** The callbacks an emission reaching the listeners `ls` calls directly. */
  function Notified(ls: seq<Entry>): seq<Call> {
    if ls == [] then []
    else (if ls[0].handler.Notify? then [Call(ls[0].handler.k, false)] else []) + Notified(ls[1..])
  }

  function Occurrences(s: seq<nat>, c: nat): nat {
    if s == [] then 0 else Occurrences(s[..|s| - 1], c) + (if s[|s| - 1] == c then 1 else 0)
  }

  lemma {:induction false} QueueAppend(a: seq<Entry>, b: seq<Entry>, name: string)
    ensures Queue(a + b, name) == Queue(a, name) + Queue(b, name)
  {
    if a == [] {
      assert a + b == b;
    } else {
      assert (a + b)[1..] == a[1..] + b;
      QueueAppend(a[1..], b, name);
    }
  }

  lemma {:induction false} PendingAppend(a: seq<Entry>, b: seq<Entry>)
    ensures forall c :: Pending(a + b, c) == Pending(a, c) + Pending(b, c)
  {
    if a == [] {
      assert a + b == b;
    } else {
      assert (a + b)[1..] == a[1..] + b;
      PendingAppend(a[1..], b);
    }
  }

  lemma OccurrencesSnoc(s: seq<nat>, x: nat)
    ensures forall c :: Occurrences(s + [x], c) == Occurrences(s, c) + (if x == c then 1 else 0)
  {
    assert (s + [x])[..|s|] == s;
  }

  lemma WaitersTail(ls: seq<Entry>, nc: nat)
    requires ls != [] && WaitersOk(ls, nc)
    ensures WaiterOk(ls[0], nc) && WaitersOk(ls[1..], nc)
  {
    assert ls[0] in ls;
    forall l | l in ls[1..] ensures WaiterOk(l, nc) {
      assert l in ls;
    }
  }

  /** Waiting closures are counted once whether an emission has taken them off
      the table or not; emissions other than `:unlocked` take none. */
  lemma {:induction false} PendingEmit(ls: seq<Entry>, t: Topic, nc: nat)
    requires WaitersOk(ls, nc)
    ensures forall c :: Pending(AfterEmit(ls, t), c) + Pending(Matching(ls, t), c) == Pending(ls, c)
    ensures t.phase != Unlocked ==> forall c :: Pending(Matching(ls, t), c) == 0
  {
    if ls != [] {
      WaitersTail(ls, nc);
      PendingEmit(ls[1..], t, nc);
      var kept := if ls[0].event == t && ls[0].once then [] else [ls[0]];
      var hit := if ls[0].event == t then [ls[0]] else [];
      PendingAppend(kept, AfterEmit(ls[1..], t));
      PendingAppend(hit, Matching(ls[1..], t));
      assert ls == [ls[0]] + ls[1..];
      PendingAppend([ls[0]], ls[1..]);
    }
  }

  lemma {:induction false} PendingBeyond(ls: seq<Entry>, nc: nat)
    requires WaitersOk(ls, nc)
    ensures forall c: nat | nc <= c :: Pending(ls, c) == 0
  {
    if ls != [] {
      WaitersTail(ls, nc);
      PendingBeyond(ls[1..], nc);
    }
  }

  /** Emitting anything but `name:unlocked` leaves the queue of `name` alone. */
  lemma {:induction false} QueueAfterEmit(ls: seq<Entry>, t: Topic, name: string)
    requires t != Topic(name, Unlocked)
    ensures Queue(AfterEmit(ls, t), name) == Queue(ls, name)
  {
    if ls != [] {
      QueueAfterEmit(ls[1..], t, name);
      var kept := if ls[0].event == t && ls[0].once then [] else [ls[0]];
      QueueAppend(kept, AfterEmit(ls[1..], t), name);
    }
  }

  /** Emitting `name:unlocked` hands its whole queue to the emission. */
  lemma {:induction false} QueueHandedOver(ls: seq<Entry>, name: string, nc: nat)
    requires WaitersOk(ls, nc)
    ensures Queue(AfterEmit(ls, Topic(name, Unlocked)), name) == []
    ensures Queue(Matching(ls, Topic(name, Unlocked)), name) == Queue(ls, name)
  {
    var t := Topic(name, Unlocked);
    if ls != [] {
      WaitersTail(ls, nc);
      QueueHandedOver(ls[1..], name, nc);
      var kept := if ls[0].event == t && ls[0].once then [] else [ls[0]];
      var hit := if ls[0].event == t then [ls[0]] else [];
      QueueAppend(kept, AfterEmit(ls[1..], t), name);
      QueueAppend(hit, Matching(ls[1..], t), name);
    }
  }

  /** The listeners for the topics of names other than `name`. */
  function Without(ls: seq<Entry>, name: string): seq<Entry> {
    if ls == [] then [] else (if ls[0].event.name != name then [ls[0]] else []) + Without(ls[1..], name)
  }

  lemma {:induction false} WithoutAppend(a: seq<Entry>, b: seq<Entry>, name: string)
    ensures Without(a + b, name) == Without(a, name) + Without(b, name)
  {
    if a == [] {
      assert a + b == b;
    } else {
      assert (a + b)[1..] == a[1..] + b;
      WithoutAppend(a[1..], b, name);
    }
  }

  /** Emitting a topic of `name` leaves the listeners of other names alone. */
  lemma {:induction false} WithoutEmit(ls: seq<Entry>, t: Topic)
    ensures Without(AfterEmit(ls, t), t.name) == Without(ls, t.name)
  {
    if ls != [] {
      WithoutEmit(ls[1..], t);
      var kept := if ls[0].event == t && ls[0].once then [] else [ls[0]];
      WithoutAppend(kept, AfterEmit(ls[1..], t), t.name);
    }
  }

  lemma {:induction false} QueueWithout(ls: seq<Entry>, name: string, n: string)
    requires n != name
    ensures Queue(Without(ls, name), n) == Queue(ls, n)
  {
    if ls != [] {
      QueueWithout(ls[1..], name, n);
      var kept := if ls[0].event.name != name then [ls[0]] else [];
      QueueAppend(kept, Without(ls[1..], name), n);
    }
  }

  /** A change confined to `name` leaves the record and the lock requests of
      every other name as they were. */
  lemma Untouched(r0: map<string, Event>, r1: map<string, Event>, l0: seq<Entry>, l1: seq<Entry>,
                  name: string, n: string)
    requires r1 - {name} == r0 - {name} && Without(l1, name) == Without(l0, name) && n != name
    ensures EventOf(r1, n) == EventOf(r0, n) && Queue(l1, n) == Queue(l0, n)
  {
    assert n in r1 <==> n in r1 - {name};
    assert n in r0 <==> n in r0 - {name};
    QueueWithout(l0, name, n);
    QueueWithout(l1, name, n);
  }

  lemma UpdateElsewhere(r: map<string, Event>, name: string, e: Event)
    ensures r[name := e] - {name} == r - {name}
  {
  }

  lemma PrefixKeeps<T>(a: seq<T>, b: seq<T>)
    requires a <= b
    ensures forall x | x in a :: x in b
  {
    forall x | x in a ensures x in b {
      var i :| 0 <= i < |a| && a[i] == x;
      assert b[i] == x;
    }
  }

  /** The `finished` flag once the lock of a name passes to the first request
      of its queue `q`, if there is one, from the flag `f` before: a `start`
      step taking the lock resets it. */
  function FinishedAfter(q: seq<Cont>, f: bool): bool {
    if q != [] && q[0].AfterStart? then false else f
  }

  // ---------------------------------------------------------------------------
  // The invariant of the lock table

  /** Every counter's `done`, plus its closures still waiting in the table or
      in flight, plus those its `block` loop has not issued yet, is its `total`;
      a counter's `next` has run once if `done` reached a non-zero `total` and
      never otherwise. */
  ghost predicate Balanced(counters: seq<Counter>, fired: seq<nat>, ls: seq<Entry>,
                           extra: seq<Entry>, unissued: nat)
  {
    (forall c | 0 <= c < |counters| ::
       counters[c].done + Pending(ls, c) + Pending(extra, c)
       + (if c == |counters| - 1 then unissued else 0) == counters[c].total)
    && (forall c | 0 <= c < |counters| ::
          Occurrences(fired, c) == if 0 < counters[c].total == counters[c].done then 1 else 0)
    && (forall c: nat | |counters| <= c :: Occurrences(fired, c) == 0)
  }

  /** The balance of the newest counter, the one the unissued requests belong to. */
  lemma NewestBalance(cs: seq<Counter>, f: seq<nat>, ls: seq<Entry>, extra: seq<Entry>, u: nat)
    requires Balanced(cs, f, ls, extra, u) && cs != []
    ensures var c := |cs| - 1;
            cs[c].done + Pending(ls, c) + Pending(extra, c) + u == cs[c].total
  {
  }

  /** The state invariant, with `extra` the callbacks already promised but not
      yet run (a lock request being served, the rest of an emission). */
  ghost predicate Inv(records: map<string, Event>, emitted: seq<Topic>, counters: seq<Counter>,
                      fired: seq<nat>, ls: seq<Entry>, extra: seq<Entry>, unissued: nat)
  {
    WaitersOk(ls, |counters|) && WaitersOk(extra, |counters|)
    && LocksAgree(records, emitted) && Exclusive(emitted)
    && Balanced(counters, fired, ls, extra, unissued)
  }

  lemma InvWait(r: map<string, Event>, es: seq<Topic>, cs: seq<Counter>, f: seq<nat>,
                ls: seq<Entry>, w: Entry, rest: seq<Entry>, u: nat)
    requires Inv(r, es, cs, f, ls, [w] + rest, u)
    ensures Inv(r, es, cs, f, ls + [w], rest, u)
  {
    PendingAppend(ls, [w]);
    PendingAppend([w], rest);
    assert w in [w] + rest;
  }

  lemma InvSkip(r: map<string, Event>, es: seq<Topic>, cs: seq<Counter>, f: seq<nat>,
                ls: seq<Entry>, w: Entry, rest: seq<Entry>, u: nat)
    requires Inv(r, es, cs, f, ls, [w] + rest, u)
    requires !(w.handler.Retry? && w.handler.cont.Count?)
    ensures Inv(r, es, cs, f, ls, rest, u)
  {
    PendingAppend([w], rest);
  }

  lemma InvAcquire(r: map<string, Event>, es: seq<Topic>, cs: seq<Counter>, f: seq<nat>,
                   ls: seq<Entry>, name: string, extra: seq<Entry>, u: nat)
    requires Inv(r, es, cs, f, ls, extra, u) && !EventOf(r, name).locked
    ensures Inv(r[name := EventOf(r, name).(locked := true)], es + [Topic(name, Locked)], cs, f,
                AfterEmit(ls, Topic(name, Locked)), extra, u)
  {
    LockFlip(r, es, name, true);
    PendingEmit(ls, Topic(name, Locked), |cs|);
    AfterEmitMembers(ls, Topic(name, Locked));
  }

  lemma InvRelease(r: map<string, Event>, es: seq<Topic>, cs: seq<Counter>, f: seq<nat>,
                   ls: seq<Entry>, name: string, extra: seq<Entry>, u: nat)
    requires Inv(r, es, cs, f, ls, extra, u)
    ensures Inv(r[name := EventOf(r, name).(locked := false)], es + [Topic(name, Unlocked)], cs, f,
                AfterEmit(ls, Topic(name, Unlocked)), Matching(ls, Topic(name, Unlocked)) + extra, u)
  {
    var t := Topic(name, Unlocked);
    LockFlip(r, es, name, false);
    PendingEmit(ls, t, |cs|);
    PendingAppend(Matching(ls, t), extra);
    AfterEmitMembers(ls, t);
    MatchingMembers(ls, t);
  }

  lemma InvOther(r: map<string, Event>, es: seq<Topic>, cs: seq<Counter>, f: seq<nat>,
                 ls: seq<Entry>, extra: seq<Entry>, u: nat, t: Topic, e: Event)
    requires Inv(r, es, cs, f, ls, extra, u)
    requires t.phase == Started || t.phase == Finished
    requires e.locked == EventOf(r, t.name).locked
    ensures Inv(r, es + [t], cs, f, AfterEmit(ls, t), extra, u)
    ensures Inv(r[t.name := e], es + [t], cs, f, AfterEmit(ls, t), extra, u)
  {
    OtherEventKeepsLocks(r, es, t);
    PendingEmit(ls, t, |cs|);
    AfterEmitMembers(ls, t);
    forall n ensures EventOf(r[t.name := e], n).locked == LockHeld(es + [t], n) {
      assert EventOf(r[t.name := e], n).locked == EventOf(r, n).locked;
    }
  }

  lemma InvRecord(r: map<string, Event>, es: seq<Topic>, cs: seq<Counter>, f: seq<nat>,
                  ls: seq<Entry>, extra: seq<Entry>, u: nat, name: string, e: Event)
    requires Inv(r, es, cs, f, ls, extra, u)
    requires e.locked == EventOf(r, name).locked
    ensures Inv(r[name := e], es, cs, f, ls, extra, u)
  {
    forall n ensures EventOf(r[name := e], n).locked == LockHeld(es, n) {
      assert EventOf(r[name := e], n).locked == EventOf(r, n).locked;
    }
  }

  lemma InvTick(r: map<string, Event>, es: seq<Topic>, cs: seq<Counter>, f: seq<nat>,
                ls: seq<Entry>, name: string, c: nat, rest: seq<Entry>, u: nat)
    requires Inv(r, es, cs, f, ls, [Waiting(name, Count(c))] + rest, u)
    ensures c < |cs| && cs[c].done < cs[c].total
    ensures var n := cs[c].done + 1;
            Inv(r, es, cs[c := cs[c].(done := n)], if n == cs[c].total then f + [c] else f, ls, rest, u)
  {
    assert Waiting(name, Count(c)) in [Waiting(name, Count(c))] + rest;
    PendingAppend([Waiting(name, Count(c))], rest);
    OccurrencesSnoc(f, c);
  }

  lemma InvNewCounter(r: map<string, Event>, es: seq<Topic>, cs: seq<Counter>, f: seq<nat>,
                      ls: seq<Entry>, total: nat, k: nat)
    requires Inv(r, es, cs, f, ls, [], 0)
    ensures Inv(r, es, cs + [Counter(0, total, k)], f, ls, [], total)
  {
    PendingBeyond(ls, |cs|);
  }

  lemma InvIssue(r: map<string, Event>, es: seq<Topic>, cs: seq<Counter>, f: seq<nat>,
                 ls: seq<Entry>, name: string, u: nat)
    requires Inv(r, es, cs, f, ls, [], u) && |cs| > 0 && u > 0
    ensures Inv(r, es, cs, f, ls, [Waiting(name, Count(|cs| - 1))] + [], u - 1)
  {
  }

  lemma InvFlight(r: map<string, Event>, es: seq<Topic>, cs: seq<Counter>, f: seq<nat>,
                  ls: seq<Entry>, name: string, next: Cont, u: nat)
    requires Inv(r, es, cs, f, ls, [], u) && !next.Count?
    ensures Inv(r, es, cs, f, ls, [Waiting(name, next)] + [], u)
  {
  }

  lemma InvListen(r: map<string, Event>, es: seq<Topic>, cs: seq<Counter>, f: seq<nat>,
                  ls: seq<Entry>, l: Entry, u: nat)
    requires Inv(r, es, cs, f, ls, [], u) && l.handler.Notify?
    ensures Inv(r, es, cs, f, ls + [l], [], u)
  {
    PendingAppend(ls, [l]);
    assert [l][1..] == [];
  }
  /** What running the callback `next` of a lock or unlock of `name` does to a
      state (records `r0`, listeners `l0`, log `e0`, calls `k0`, counters `c0`,
      fired counters `f0`). */
  ghost predicate ContDone(name: string, next: Cont, r0: map<string, Event>, l0: seq<Entry>,
                           e0: seq<Topic>, k0: seq<Call>, c0: seq<Counter>, f0: seq<nat>,
                           records: map<string, Event>, listeners: seq<Entry>, emitted: seq<Topic>,
                           calls: seq<Call>, counters: seq<Counter>, fired: seq<nat>)
  {
    match next
    case Resume(k) =>
      records == r0 && listeners == l0 && emitted == e0 && calls == k0 + [Call(k, false)]
      && counters == c0 && fired == f0
    case AfterStart(k) =>
      var t := Topic(name, Started);
      records == r0[name := EventOf(r0, name).(finished := false)] && listeners == AfterEmit(l0, t)
      && emitted == e0 + [t] && calls == k0 + Notified(Matching(l0, t)) + [Call(k, false)]
      && counters == c0 && fired == f0
    case AfterFinish(k) =>
      var t := Topic(name, Finished);
      records == r0 && listeners == AfterEmit(l0, t)
      && emitted == e0 + [t] && calls == k0 + Notified(Matching(l0, t)) + [Call(k, false)]
      && counters == c0 && fired == f0
    case Count(c) =>
      c < |c0| && records == r0 && listeners == l0 && emitted == e0
      && counters == c0[c := c0[c].(done := c0[c].done + 1)]
      && if c0[c].done + 1 == c0[c].total
         then calls == k0 + [Call(c0[c].next, false)] && fired == f0 + [c]
         else calls == k0 && fired == f0
  }

  /** The bookkeeping of moving from the `i`-th listener of an emission to the next. */
  lemma DeliverStep(s: seq<Entry>, i: nat, flight: seq<Entry>, name: string)
    requires i < |s|
    ensures s[i..] + flight == [s[i]] + (s[i + 1..] + flight)
    ensures Queue(s[..i + 1], name) == Queue(s[..i], name) + Queue([s[i]], name)
    ensures Queue([s[i]], name)
         == if s[i].event == Topic(name, Unlocked) && s[i].handler.Retry? then [s[i].handler.cont] else []
    ensures forall c :: Pending(s[i..], c) == Pending([s[i]], c) + Pending(s[i + 1..], c)
  {
    assert s[i..] == [s[i]] + s[i + 1..];
    assert s[..i + 1] == s[..i] + [s[i]];
    assert [s[i]][1..] == [];
    QueueAppend(s[..i], [s[i]], name);
    PendingAppend([s[i]], s[i + 1..]);
  }

  /** The fixed part of each counter, its `total` and its `next`: counters
      only ever advance their `done`. */
  function Limits(cs: seq<Counter>): (r: seq<(nat, nat)>)
    ensures |r| == |cs|
  {
    if cs == [] then [] else Limits(cs[..|cs| - 1]) + [(cs[|cs| - 1].total, cs[|cs| - 1].next)]
  }

  lemma {:induction false} LimitsAt(cs: seq<Counter>, c: nat)
    requires c < |cs|
    ensures Limits(cs)[c] == (cs[c].total, cs[c].next)
  {
    if c < |cs| - 1 {
      LimitsAt(cs[..|cs| - 1], c);
    }
  }

  lemma {:induction false} LimitsAdvance(cs: seq<Counter>, c: nat, d: nat)
    requires c < |cs|
    ensures Limits(cs[c := cs[c].(done := d)]) == Limits(cs)
  {
    var cs' := cs[c := cs[c].(done := d)];
    if c < |cs| - 1 {
      assert cs'[..|cs| - 1] == cs[..|cs| - 1][c := cs[c].(done := d)];
      LimitsAdvance(cs[..|cs| - 1], c, d);
    } else {
      assert cs'[..|cs| - 1] == cs[..|cs| - 1];
    }
  }

  /** Every name of `names` is locked. */
  ghost predicate AllLocked(records: map<string, Event>, names: seq<string>) {
    forall n | n in names :: EventOf(records, n).locked
  }

  /** Locking `name` by a change confined to it keeps the names locked before locked. */
  lemma LockedKept(names: seq<string>, i: nat, r1: map<string, Event>, r2: map<string, Event>,
                   l1: seq<Entry>, l2: seq<Entry>)
    requires i < |names|
    requires AllLocked(r1, names[..i]) && EventOf(r2, names[i]).locked
    requires r2 - {names[i]} == r1 - {names[i]} && Without(l2, names[i]) == Without(l1, names[i])
    ensures AllLocked(r2, names[..i + 1])
  {
    var name := names[i];
    assert names[..i + 1] == names[..i] + [name];
    forall n | n in names[..i + 1] ensures EventOf(r2, n).locked {
      if n != name {
        Untouched(r1, r2, l1, l2, name, n);
      }
    }
  }

  /** Every name of `names` has had `:unlocked` emitted and, if it had no
      lock request queued in `l0`, is free. */
  ghost predicate AllUnlocked(records: map<string, Event>, emitted: seq<Topic>, l0: seq<Entry>,
                              names: seq<string>) {
    forall n | n in names :: Topic(n, Unlocked) in emitted && (Queue(l0, n) == [] ==> !EventOf(records, n).locked)
  }

  /** No lock request has been queued on a name of `names` whose queue in `l0` was empty. */
  ghost predicate NoNewRequests(listeners: seq<Entry>, l0: seq<Entry>, names: seq<string>) {
    forall n | n in names && Queue(l0, n) == [] :: Queue(listeners, n) == []
  }

  /** Unlocking `name` by a change confined to it keeps the names unlocked
      before unlocked, and frees `name` unless a request was queued on it. */
  lemma UnlockedKept(all: seq<string>, i: nat, l0: seq<Entry>,
                     r1: map<string, Event>, r2: map<string, Event>, l1: seq<Entry>, l2: seq<Entry>,
                     e1: seq<Topic>, e2: seq<Topic>)
    requires i < |all|
    requires AllUnlocked(r1, e1, l0, all[..i]) && NoNewRequests(l1, l0, all)
    requires r2 - {all[i]} == r1 - {all[i]} && Without(l2, all[i]) == Without(l1, all[i])
    requires EventOf(r2, all[i]).locked == (Queue(l1, all[i]) != [])
    requires Queue(l2, all[i]) == Tail(Queue(l1, all[i]))
    requires e1 + [Topic(all[i], Unlocked)] <= e2
    ensures AllUnlocked(r2, e2, l0, all[..i + 1]) && NoNewRequests(l2, l0, all)
  {
    var name, names := all[i], all[..i];
    assert all[..i + 1] == names + [name];
    assert forall n | n in names :: n in all;
    PrefixKeeps(e1 + [Topic(name, Unlocked)], e2);
    forall n | n in names + [name] ensures Topic(n, Unlocked) in e2 {
      if n != name {
        assert Topic(n, Unlocked) in e1 + [Topic(name, Unlocked)];
      }
    }
    forall n | (n in all || n in names) && n != name
      ensures EventOf(r2, n) == EventOf(r1, n) && Queue(l2, n) == Queue(l1, n)
    {
      Untouched(r1, r2, l1, l2, name, n);
    }
  }

  /** The lock of `name` has been handed to the first of the requests `q` (a
      prefix of its queue, records `r0` before): the name is held iff there
      is one, `finished` was reset iff it was a `start` step, the other
      requests are queued again, and with none nothing changed. */
  ghost predicate HandedOver(name: string, q: seq<Cont>, r0: map<string, Event>,
                             records: map<string, Event>, listeners: seq<Entry>)
  {
    && EventOf(records, name).locked == (q != [])
    && Queue(listeners, name) == Tail(q)
    && (q == [] ==> records == r0)
    && EventOf(records, name).finished == FinishedAfter(q, EventOf(r0, name).finished)
  }

  /** After the first `i` listeners of the `name:unlocked` emission `s`
      (records `r0` and listeners `ls0` when it began), with `records` and
      `listeners` now: the lock went to the first request among them, and no
      waiting closure has been duplicated. */
  ghost predicate DeliveredUpTo(name: string, s: seq<Entry>, i: nat, r0: map<string, Event>, ls0: seq<Entry>,
                                records: map<string, Event>, listeners: seq<Entry>)
    requires i <= |s|
  {
    && HandedOver(name, Queue(s[..i], name), r0, records, listeners)
    && (forall c :: Pending(listeners, c) + Pending(s[i..], c) <= Pending(ls0, c) + Pending(s, c))
  }

  /** A wake-up by the listener `w`, taking the records and listeners from
      `r1`, `l1` to `r2`, `l2`, hands the lock on to one more request. */
  lemma HandedOverStep(name: string, q: seq<Cont>, w: Entry, r0: map<string, Event>,
                       r1: map<string, Event>, l1: seq<Entry>, r2: map<string, Event>, l2: seq<Entry>)
    requires HandedOver(name, q, r0, r1, l1)
    requires EventOf(r2, name).locked == (EventOf(r1, name).locked || w.handler.Retry?)
    requires Queue(l2, name) == Queue(l1, name)
               + if w.handler.Retry? && EventOf(r1, name).locked then [w.handler.cont] else []
    requires w.handler.Notify? ==> r2 == r1
    requires EventOf(r2, name).finished
             == if w.handler.Retry? && !EventOf(r1, name).locked && w.handler.cont.AfterStart? then false
                else EventOf(r1, name).finished
    ensures HandedOver(name, q + (if w.handler.Retry? then [w.handler.cont] else []), r0, r2, l2)
  {
    if w.handler.Retry? && q != [] {
      TailSnoc(q, w.handler.cont);
    }
  }

  /** One more listener `s[i]` of the emission has run, taking the records
      and listeners from `r1`, `l1` to `r2`, `l2` as a wake-up does. */
  lemma DeliveredAdvance(name: string, s: seq<Entry>, i: nat, r0: map<string, Event>, ls0: seq<Entry>,
                         r1: map<string, Event>, l1: seq<Entry>, r2: map<string, Event>, l2: seq<Entry>)
    requires i < |s| && s[i].event == Topic(name, Unlocked)
    requires DeliveredUpTo(name, s, i, r0, ls0, r1, l1)
    requires EventOf(r2, name).locked == (EventOf(r1, name).locked || s[i].handler.Retry?)
    requires Queue(l2, name) == Queue(l1, name)
               + if s[i].handler.Retry? && EventOf(r1, name).locked then [s[i].handler.cont] else []
    requires forall c :: Pending(l2, c) <= Pending(l1, c) + Pending([s[i]], c)
    requires s[i].handler.Notify? ==> r2 == r1
    requires EventOf(r2, name).finished
             == if s[i].handler.Retry? && !EventOf(r1, name).locked && s[i].handler.cont.AfterStart? then false
                else EventOf(r1, name).finished
    ensures DeliveredUpTo(name, s, i + 1, r0, ls0, r2, l2)
  {
    DeliverStep(s, i, [], name);
    HandedOverStep(name, Queue(s[..i], name), s[i], r0, r1, l1, r2, l2);
    forall c ensures Pending(l2, c) + Pending(s[i + 1..], c) <= Pending(ls0, c) + Pending(s, c) {
      assert Pending(s[i..], c) == Pending([s[i]], c) + Pending(s[i + 1..], c);
    }
  }

  /** The names argument of `block`/`unblock`: an array, a string, or anything else. */
  datatype NamesArg = Names(list: seq<string>) | Text(text: string) | Unsupported

  function NamesOf(arg: NamesArg): seq<string>
    requires !arg.Unsupported?
  {
    if arg.Names? then arg.list else Split(arg.text)
  }

  /** The event system: the table of records (`_eventSystemEvents`), the
      emitter's listener table and log of emitted events, the log of callback
      invocations, and the counters of the `block`/`unblock` calls so far. */
  class EventSystem {
    var records: map<string, Event>
    var listeners: seq<Entry>
    var emitted: seq<Topic>
    var calls: seq<Call>
    var counters: seq<Counter>
    /** The counters whose `next` has run, in order. */
    ghost var fired: seq<nat>
    /** Per-name closures the newest counter's loop has still to issue. */
    ghost var unissued: nat

    ghost predicate Good(extra: seq<Entry>)
      reads this
    {
      Inv(records, emitted, counters, fired, listeners, extra, unissued)
    }

    ghost predicate Valid()
      reads this
    {
      unissued == 0 && Good([])
    }

    /** Of the records `r0` and listeners `l0`, only the record of `name` and
        the listeners for its topics may have changed. */
    ghost predicate Touches(name: string, r0: map<string, Event>, l0: seq<Entry>)
      reads this
    {
      records - {name} == r0 - {name} && Without(listeners, name) == Without(l0, name)
    }

    constructor ()
      ensures Valid()
      ensures records == map[] && listeners == [] && emitted == [] && calls == [] && counters == []
    {
      records, listeners, emitted, calls, counters := map[], [], [], [], [];
      fired, unissued := [], 0;
    }

    /** `event(name)`: the record of `name`, created unlocked and unfinished the
        first time it is asked for and the same record afterwards. */
    method GetEvent(name: string) returns (e: Event)
      requires Valid()
      modifies this`records
      ensures Valid()
      ensures e == if name in old(records) then old(records)[name] else Event(false, false)
      ensures records == old(records)[name := e]
    {
      e := EventOf(records, name);
      InvRecord(records, emitted, counters, fired, listeners, [], 0, name, e);
      records := records[name := e];
    }

    /** Run the callback a lock or unlock of `name` was given. */
    method RunCont(name: string, next: Cont, ghost rest: seq<Entry>)
      requires Good([Waiting(name, next)] + rest)
      modifies this
      ensures Good(rest) && unissued == old(unissued)
      ensures Limits(counters) == Limits(old(counters))
      ensures ContDone(name, next, old(records), old(listeners), old(emitted), old(calls), old(counters),
                       old(fired), records, listeners, emitted, calls, counters, fired)
      ensures EventOf(records, name).locked == EventOf(old(records), name).locked
      ensures Queue(listeners, name) == Queue(old(listeners), name)
      ensures forall c :: Pending(listeners, c) == Pending(old(listeners), c)
      ensures old(emitted) <= emitted
      ensures !next.AfterStart? ==> EventOf(records, name) == EventOf(old(records), name)
      ensures next.AfterStart? ==> !EventOf(records, name).finished
      ensures Touches(name, old(records), old(listeners))
      ensures next.Resume? || next.AfterFinish? ==> calls != [] && calls[|calls| - 1] == Call(next.k, false)
      ensures next.AfterFinish? ==> emitted[|emitted| - 1] == Topic(name, Finished)
    {
      match next {
        case Resume(k) =>
          InvSkip(records, emitted, counters, fired, listeners, Waiting(name, next), rest, unissued);
          calls := calls + [Call(k, false)];
        case AfterStart(_) =>
          WithoutEmit(listeners, Topic(name, Started));
          UpdateElsewhere(records, name, EventOf(records, name).(finished := false));
          Announce(name, next, rest);
        case AfterFinish(_) =>
          WithoutEmit(listeners, Topic(name, Finished));
          Announce(name, next, rest);
        case Count(c) =>
          Tick(name, c, rest);
      }
    }

    /** The closures `start` and `finished` pass on: reset `finished` (for
        `start`), emit `name:started` or `name:finished`, then call `next`. */
    method Announce(name: string, next: Cont, ghost rest: seq<Entry>)
      requires next.AfterStart? || next.AfterFinish?
      requires Good([Waiting(name, next)] + rest)
      modifies this
      ensures Good(rest) && unissued == old(unissued)
      ensures Limits(counters) == Limits(old(counters))
      ensures ContDone(name, next, old(records), old(listeners), old(emitted), old(calls), old(counters),
                       old(fired), records, listeners, emitted, calls, counters, fired)
      ensures EventOf(records, name).locked == EventOf(old(records), name).locked
      ensures Queue(listeners, name) == Queue(old(listeners), name)
      ensures forall c :: Pending(listeners, c) == Pending(old(listeners), c)
    {
      var t := Topic(name, if next.AfterStart? then Started else Finished);
      var e := if next.AfterStart? then EventOf(records, name).(finished := false) else EventOf(records, name);
      InvSkip(records, emitted, counters, fired, listeners, Waiting(name, next), rest, unissued);
      InvOther(records, emitted, counters, fired, listeners, rest, unissued, t, e);
      QueueAfterEmit(listeners, t, name);
      PendingEmit(listeners, t, |counters|);
      if next.AfterStart? {
        records := records[name := e];
      }
      emitted := emitted + [t];
      calls := calls + Notified(Matching(listeners, t));
      listeners := AfterEmit(listeners, t);
      calls := calls + [Call(next.k, false)];
    }

    /** The per-name closure of `block`/`unblock`: count one more name done and
        call the shared `next` when that makes the count complete. */
    method Tick(name: string, c: nat, ghost rest: seq<Entry>)
      requires Good([Waiting(name, Count(c))] + rest)
      modifies this
      ensures Good(rest) && unissued == old(unissued)
      ensures Limits(counters) == Limits(old(counters))
      ensures ContDone(name, Count(c), old(records), old(listeners), old(emitted), old(calls), old(counters),
                       old(fired), records, listeners, emitted, calls, counters, fired)
      ensures records == old(records) && listeners == old(listeners)
    {
      InvTick(records, emitted, counters, fired, listeners, name, c, rest, unissued);
      var n := counters[c].done + 1;
      LimitsAdvance(counters, c, n);
      counters := counters[c := counters[c].(done := n)];
      if n == counters[c].total {
        calls := calls + [Call(counters[c].next, false)];
        fired := fired + [c];
      }
    }

    /** `lock(name, next)`: take a free lock, emit `name:locked` and run `next`;
        otherwise queue a one-shot `name:unlocked` listener that retries. */
    method Lock(name: string, next: Cont, ghost rest: seq<Entry>)
      requires Good([Waiting(name, next)] + rest)
      modifies this
      ensures Good(rest) && unissued == old(unissued)
      ensures Limits(counters) == Limits(old(counters))
      ensures EventOf(records, name).locked
      ensures Queue(listeners, name)
           == Queue(old(listeners), name) + if EventOf(old(records), name).locked then [next] else []
      ensures forall c :: Pending(listeners, c) <= Pending(old(listeners), c) + Pending([Waiting(name, next)], c)
      ensures Touches(name, old(records), old(listeners))
      ensures EventOf(records, name).finished
           == if LockStepOf(old(records), name) == Acquire && next.AfterStart? then false
              else EventOf(old(records), name).finished
      ensures LockStepOf(old(records), name) == Wait ==>
                records == old(records) && listeners == old(listeners) + [Waiting(name, next)]
                && emitted == old(emitted) && calls == old(calls) && counters == old(counters)
                && fired == old(fired)
      ensures LockStepOf(old(records), name) == Acquire ==>
                var t := Topic(name, Locked);
                ContDone(name, next, old(records)[name := EventOf(old(records), name).(locked := true)],
                         AfterEmit(old(listeners), t), old(emitted) + [t],
                         old(calls) + Notified(Matching(old(listeners), t)), old(counters), old(fired),
                         records, listeners, emitted, calls, counters, fired)
    {
      var e := EventOf(records, name);
      if !e.locked {
        PendingAppend([Waiting(name, next)], []);
        TakeLock(name, [Waiting(name, next)] + rest);
        RunCont(name, next, rest);
      } else {
        InvWait(records, emitted, counters, fired, listeners, Waiting(name, next), rest, unissued);
        QueueAppend(listeners, [Waiting(name, next)], name);
        PendingAppend(listeners, [Waiting(name, next)]);
        WithoutAppend(listeners, [Waiting(name, next)], name);
        listeners := listeners + [Waiting(name, next)];
      }
    }

    /** The first half of a `lock` of a free name: set the flag and emit
        `name:locked`. */
    method TakeLock(name: string, ghost flight: seq<Entry>)
      requires Good(flight) && !EventOf(records, name).locked
      modifies this`records, this`emitted, this`calls, this`listeners
      ensures Good(flight)
      ensures records == old(records)[name := EventOf(old(records), name).(locked := true)]
      ensures emitted == old(emitted) + [Topic(name, Locked)]
      ensures calls == old(calls) + Notified(Matching(old(listeners), Topic(name, Locked)))
      ensures listeners == AfterEmit(old(listeners), Topic(name, Locked))
      ensures Queue(listeners, name) == Queue(old(listeners), name)
      ensures forall c :: Pending(listeners, c) == Pending(old(listeners), c)
      ensures Touches(name, old(records), old(listeners))
    {
      var t := Topic(name, Locked);
      var e := EventOf(records, name);
      InvAcquire(records, emitted, counters, fired, listeners, name, flight, unissued);
      QueueAfterEmit(listeners, t, name);
      PendingEmit(listeners, t, |counters|);
      WithoutEmit(listeners, t);
      UpdateElsewhere(records, name, e.(locked := true));
      records := records[name := e.(locked := true)];
      emitted := emitted + [t];
      calls := calls + Notified(Matching(listeners, t));
      listeners := AfterEmit(listeners, t);
    }

    /** One listener of a `name:unlocked` emission: a caller's callback is
        called, a retry closure retries `lock`. */
    method Wake(name: string, w: Entry, ghost rest: seq<Entry>)
      requires w.event == Topic(name, Unlocked)
      requires Good([w] + rest)
      modifies this
      ensures Good(rest) && unissued == old(unissued)
      ensures Limits(counters) == Limits(old(counters))
      ensures EventOf(records, name).locked == (EventOf(old(records), name).locked || w.handler.Retry?)
      ensures Queue(listeners, name) == Queue(old(listeners), name)
                + if w.handler.Retry? && EventOf(old(records), name).locked then [w.handler.cont] else []
      ensures forall c :: Pending(listeners, c) <= Pending(old(listeners), c) + Pending([w], c)
      ensures w.handler.Notify? ==> records == old(records)
      ensures EventOf(records, name).finished
           == if w.handler.Retry? && !EventOf(old(records), name).locked && w.handler.cont.AfterStart? then false
              else EventOf(old(records), name).finished
      ensures Touches(name, old(records), old(listeners))
      ensures old(emitted) <= emitted
    {
      match w.handler {
        case Notify(k) =>
          InvSkip(records, emitted, counters, fired, listeners, w, rest, unissued);
          calls := calls + [Call(k, false)];
        case Retry(cont) =>
          assert w in [w] + rest;
          assert w == Waiting(name, cont);
          Lock(name, cont, rest);
      }
    }

    /** The listeners `s` of a `name:unlocked` emission, called in order. */
    method Deliver(name: string, s: seq<Entry>, ghost flight: seq<Entry>)
      requires forall l | l in s :: l.event == Topic(name, Unlocked)
      requires Good(s + flight)
      requires Queue(listeners, name) == [] && !EventOf(records, name).locked
      modifies this
      ensures Good(flight) && unissued == old(unissued)
      ensures Limits(counters) == Limits(old(counters))
      ensures EventOf(records, name).locked == (Queue(s, name) != [])
      ensures Queue(listeners, name) == Tail(Queue(s, name))
      ensures Queue(s, name) == [] ==> records == old(records)
      ensures EventOf(records, name).finished == FinishedAfter(Queue(s, name), EventOf(old(records), name).finished)
      ensures Touches(name, old(records), old(listeners))
      ensures forall c :: Pending(listeners, c) <= Pending(old(listeners), c) + Pending(s, c)
      ensures old(emitted) <= emitted
    {
      ghost var ls0 := listeners;
      assert s[0..] == s && s[..0] == [];
      for i := 0 to |s|
        invariant Good(s[i..] + flight) && unissued == old(unissued)
        invariant DeliveredUpTo(name, s, i, old(records), ls0, records, listeners)
        invariant Limits(counters) == Limits(old(counters))
        invariant Touches(name, old(records), old(listeners))
        invariant old(emitted) <= emitted
      {
        DeliverNext(name, s, i, flight, old(records), ls0);
      }
      assert s[..|s|] == s && s[|s|..] + flight == flight;
    }

    /** The `i`-th listener of the `name:unlocked` emission `s` runs. */
    method DeliverNext(name: string, s: seq<Entry>, i: nat, ghost flight: seq<Entry>,
                       ghost r0: map<string, Event>, ghost ls0: seq<Entry>)
      requires i < |s| && forall l | l in s :: l.event == Topic(name, Unlocked)
      requires Good(s[i..] + flight) && DeliveredUpTo(name, s, i, r0, ls0, records, listeners)
      modifies this
      ensures Good(s[i + 1..] + flight) && unissued == old(unissued)
      ensures DeliveredUpTo(name, s, i + 1, r0, ls0, records, listeners)
      ensures Limits(counters) == Limits(old(counters))
      ensures Touches(name, old(records), old(listeners))
      ensures old(emitted) <= emitted
    {
      assert s[i] in s;
      DeliverStep(s, i, flight, name);
      ghost var r1, l1 := records, listeners;
      Wake(name, s[i], s[i + 1..] + flight);
      DeliveredAdvance(name, s, i, r0, ls0, r1, l1, records, listeners);
    }

    /** `unlock(name, next)`: clear the flag whatever it was, emit
        `name:unlocked` (whose first queued request takes the lock and whose
        other requests queue again, in order) and run `next`. */
    method Unlock(name: string, next: Cont, ghost rest: seq<Entry>)
      requires Good([Waiting(name, next)] + rest)
      modifies this
      ensures Good(rest) && unissued == old(unissued)
      ensures Limits(counters) == Limits(old(counters))
      ensures EventOf(records, name).locked == (Queue(old(listeners), name) != [])
      ensures Queue(listeners, name) == Tail(Queue(old(listeners), name))
      ensures Queue(old(listeners), name) == [] && !next.AfterStart? ==>
                EventOf(records, name) == EventOf(old(records), name).(locked := false)
      ensures !next.AfterStart? ==>
                EventOf(records, name).finished
                == FinishedAfter(Queue(old(listeners), name), EventOf(old(records), name).finished)
      ensures Touches(name, old(records), old(listeners))
      ensures forall c :: Pending(listeners, c) <= Pending(old(listeners), c)
      ensures old(emitted) + [Topic(name, Unlocked)] <= emitted
      ensures next.Resume? || next.AfterFinish? ==> calls != [] && calls[|calls| - 1] == Call(next.k, false)
      ensures next.AfterFinish? ==> emitted[|emitted| - 1] == Topic(name, Finished)
    {
      var s := Release(name, [Waiting(name, next)] + rest);
      Deliver(name, s, [Waiting(name, next)] + rest);
      RunCont(name, next, rest);
    }

    /** The first half of `unlock`: clear the flag and emit `name:unlocked`,
        taking its listeners `s` (all queued lock requests among them) off the
        table to be called. */
    method Release(name: string, ghost flight: seq<Entry>) returns (s: seq<Entry>)
      requires Good(flight)
      modifies this`records, this`emitted, this`listeners
      ensures s == Matching(old(listeners), Topic(name, Unlocked))
      ensures Good(s + flight)
      ensures forall l | l in s :: l.event == Topic(name, Unlocked)
      ensures records == old(records)[name := EventOf(old(records), name).(locked := false)]
      ensures emitted == old(emitted) + [Topic(name, Unlocked)]
      ensures listeners == AfterEmit(old(listeners), Topic(name, Unlocked))
      ensures Queue(listeners, name) == [] && Queue(s, name) == Queue(old(listeners), name)
      ensures forall c :: Pending(listeners, c) + Pending(s, c) == Pending(old(listeners), c)
      ensures Touches(name, old(records), old(listeners))
    {
      var t := Topic(name, Unlocked);
      s := Matching(listeners, t);
      InvRelease(records, emitted, counters, fired, listeners, name, flight, unissued);
      QueueHandedOver(listeners, name, |counters|);
      PendingEmit(listeners, t, |counters|);
      MatchingMembers(listeners, t);
      WithoutEmit(listeners, t);
      UpdateElsewhere(records, name, EventOf(records, name).(locked := false));
      records := records[name := EventOf(records, name).(locked := false)];
      emitted := emitted + [t];
      listeners := AfterEmit(listeners, t);
    }
    /** `start(name, next)`: once the lock is taken, reset `finished`, emit
        `name:started` and call `next`; a held lock queues the whole step. */
    method Start(name: string, k: nat)
      requires Valid()
      modifies this
      ensures Valid()
      ensures !EventOf(old(records), name).locked ==>
                var (tl, ts) := (Topic(name, Locked), Topic(name, Started));
                records == old(records)[name := Event(true, false)]
                && emitted == old(emitted) + [tl, ts]
                && listeners == AfterEmit(AfterEmit(old(listeners), tl), ts)
                && calls == old(calls) + Notified(Matching(old(listeners), tl))
                            + Notified(Matching(AfterEmit(old(listeners), tl), ts)) + [Call(k, false)]
      ensures EventOf(old(records), name).locked ==>
                records == old(records) && emitted == old(emitted) && calls == old(calls)
                && listeners == old(listeners) + [Waiting(name, AfterStart(k))]
      ensures counters == old(counters)
    {
      InvFlight(records, emitted, counters, fired, listeners, name, AfterStart(k), 0);
      ghost var r0 := records;
      Lock(name, AfterStart(k), []);
      assert !EventOf(r0, name).locked ==> records == r0[name := Event(true, false)];
    }

    /** `finish(name, next)`, an alias of `finished(name, next)`: set `finished`, unlock,
        then emit `name:finished` and call `next`. */
    method Finish(name: string, k: nat)
      requires Valid()
      modifies this
      ensures Valid()
      ensures EventOf(records, name).locked == (Queue(old(listeners), name) != [])
      ensures Queue(old(listeners), name) == [] ==> EventOf(records, name) == Event(false, true)
      ensures EventOf(records, name).finished
           == !(Queue(old(listeners), name) != [] && Queue(old(listeners), name)[0].AfterStart?)
      ensures Queue(listeners, name) == Tail(Queue(old(listeners), name))
      ensures old(emitted) + [Topic(name, Unlocked)] <= emitted
      ensures emitted[|emitted| - 1] == Topic(name, Finished)
      ensures calls != [] && calls[|calls| - 1] == Call(k, false)
    {
      var e := GetEvent(name);
      InvRecord(records, emitted, counters, fired, listeners, [], 0, name, e.(finished := true));
      records := records[name := e.(finished := true)];
      InvFlight(records, emitted, counters, fired, listeners, name, AfterFinish(k), 0);
      Unlock(name, AfterFinish(k), []);
    }

    /** `onceUnlocked(name, next)`: call `next` now if the name is free,
        otherwise on the next `name:unlocked`, once. */
    method OnceUnlocked(name: string, k: nat)
      requires Valid()
      modifies this
      ensures Valid()
      ensures records == old(records)[name := EventOf(old(records), name)]
      ensures emitted == old(emitted) && counters == old(counters)
      ensures EventOf(old(records), name).locked ==>
                listeners == old(listeners) + [Listener(Topic(name, Unlocked), true, Notify(k))]
                && calls == old(calls)
      ensures !EventOf(old(records), name).locked ==>
                listeners == old(listeners) && calls == old(calls) + [Call(k, false)]
    {
      var e := GetEvent(name);
      if e.locked {
        InvListen(records, emitted, counters, fired, listeners, Listener(Topic(name, Unlocked), true, Notify(k)), 0);
        listeners := listeners + [Listener(Topic(name, Unlocked), true, Notify(k))];
      } else {
        calls := calls + [Call(k, false)];
      }
    }

    /** `onceFinished(name, next)`: call `next` now if the name has finished,
        otherwise on the next `name:finished`, once. */
    method OnceFinished(name: string, k: nat)
      requires Valid()
      modifies this
      ensures Valid()
      ensures records == old(records)[name := EventOf(old(records), name)]
      ensures emitted == old(emitted) && counters == old(counters)
      ensures EventOf(old(records), name).finished ==>
                listeners == old(listeners) && calls == old(calls) + [Call(k, false)]
      ensures !EventOf(old(records), name).finished ==>
                listeners == old(listeners) + [Listener(Topic(name, Finished), true, Notify(k))]
                && calls == old(calls)
    {
      var e := GetEvent(name);
      if e.finished {
        calls := calls + [Call(k, false)];
      } else {
        InvListen(records, emitted, counters, fired, listeners, Listener(Topic(name, Finished), true, Notify(k)), 0);
        listeners := listeners + [Listener(Topic(name, Finished), true, Notify(k))];
      }
    }

    /** `whenFinished(name, next)`: call `next` now if the name has finished,
        and in any case on every later `name:finished`. */
    method WhenFinished(name: string, k: nat)
      requires Valid()
      modifies this
      ensures Valid()
      ensures records == old(records)[name := EventOf(old(records), name)]
      ensures emitted == old(emitted) && counters == old(counters)
      ensures calls == old(calls) + if EventOf(old(records), name).finished then [Call(k, false)] else []
      ensures listeners == old(listeners) + [Listener(Topic(name, Finished), false, Notify(k))]
    {
      var e := GetEvent(name);
      if e.finished {
        calls := calls + [Call(k, false)];
      }
      InvListen(records, emitted, counters, fired, listeners, Listener(Topic(name, Finished), false, Notify(k)), 0);
      listeners := listeners + [Listener(Topic(name, Finished), false, Notify(k))];
    }

    /** `block(names, next)`: lock every name in turn through one shared
        counter whose `next` runs when the last of the locks is taken. */
    method Block(arg: NamesArg, k: nat)
      requires Valid()
      modifies this
      ensures Valid()
      ensures arg.Unsupported? ==>
                calls == old(calls) + [Call(k, true)] && records == old(records)
                && listeners == old(listeners) && emitted == old(emitted) && counters == old(counters)
      ensures !arg.Unsupported? ==>
                var c := |old(counters)|;
                |counters| == c + 1 && counters[c].total == |NamesOf(arg)| && counters[c].next == k
                && counters[c].done + Pending(listeners, c) == |NamesOf(arg)|
                && Occurrences(fired, c) == (if NamesOf(arg) != [] && Pending(listeners, c) == 0 then 1 else 0)
                && (NamesOf(arg) == [] ==> calls == old(calls))
                && AllLocked(records, NamesOf(arg))
    {
      if arg.Unsupported? {
        calls := calls + [Call(k, true)];
        return;
      }
      var names := NamesOf(arg);
      var c := |counters|;
      InvNewCounter(records, emitted, counters, fired, listeners, |names|, k);
      counters := counters + [Counter(0, |names|, k)];
      unissued := |names|;
      for i := 0 to |names|
        invariant Good([]) && unissued == |names| - i
        invariant |counters| == c + 1 && counters[c].total == |names| && counters[c].next == k
        invariant i == 0 ==> calls == old(calls)
        invariant AllLocked(records, names[..i])
      {
        ghost var r1, l1 := records, listeners;
        BlockOne(names[i], c);
        LockedKept(names, i, r1, records, l1, listeners);
      }
      assert names[..|names|] == names;
    }

    /** One lock of `block`, counted against the newest counter `c`. */
    method BlockOne(name: string, c: nat)
      requires Good([]) && unissued > 0 && c == |counters| - 1
      modifies this
      ensures Good([]) && unissued == old(unissued) - 1
      ensures |counters| == |old(counters)|
      ensures counters[c].total == old(counters[c]).total && counters[c].next == old(counters[c]).next
      ensures EventOf(records, name).locked && Touches(name, old(records), old(listeners))
    {
      InvIssue(records, emitted, counters, fired, listeners, name, unissued);
      unissued := unissued - 1;
      ghost var before := counters;
      Lock(name, Count(c), []);
      LimitsAt(counters, c);
      LimitsAt(before, c);
    }

    /** `unblock(names, next)`: unlock every name in turn through one shared
        counter; its `next` runs once, after the last unlock, if there was one. */
    method Unblock(arg: NamesArg, k: nat)
      requires Valid()
      modifies this
      ensures Valid()
      ensures arg.Unsupported? ==>
                calls == old(calls) + [Call(k, true)] && records == old(records)
                && listeners == old(listeners) && emitted == old(emitted) && counters == old(counters)
      ensures !arg.Unsupported? ==>
                var c := |old(counters)|;
                |counters| == c + 1 && counters[c] == Counter(|NamesOf(arg)|, |NamesOf(arg)|, k)
                && Occurrences(fired, c) == (if NamesOf(arg) != [] then 1 else 0)
                && (NamesOf(arg) == [] ==> calls == old(calls))
                && AllUnlocked(records, emitted, old(listeners), NamesOf(arg))
    {
      if arg.Unsupported? {
        calls := calls + [Call(k, true)];
        return;
      }
      var names := NamesOf(arg);
      var c := |counters|;
      InvNewCounter(records, emitted, counters, fired, listeners, |names|, k);
      PendingBeyond(listeners, c);
      counters := counters + [Counter(0, |names|, k)];
      unissued := |names|;
      for i := 0 to |names|
        invariant Good([]) && unissued == |names| - i
        invariant |counters| == c + 1 && counters[c] == Counter(i, |names|, k)
        invariant Pending(listeners, c) == 0
        invariant i == 0 ==> calls == old(calls)
        invariant AllUnlocked(records, emitted, old(listeners), names[..i])
        invariant NoNewRequests(listeners, old(listeners), names)
      {
        ghost var r1, l1, e1 := records, listeners, emitted;
        UnblockOne(names[i], c);
        UnlockedKept(names, i, old(listeners), r1, records, l1, listeners, e1, emitted);
      }
      assert names[..|names|] == names;
    }

    /** One unlock of `unblock`, counted against the newest counter `c`. */
    method UnblockOne(name: string, c: nat)
      requires Good([]) && unissued > 0 && c == |counters| - 1 && Pending(listeners, c) == 0
      modifies this
      ensures Good([]) && unissued == old(unissued) - 1
      ensures |counters| == |old(counters)| && counters[c] == old(counters[c]).(done := old(counters[c]).done + 1)
      ensures Pending(listeners, c) == 0
      ensures EventOf(records, name).locked == (Queue(old(listeners), name) != [])
      ensures Queue(listeners, name) == Tail(Queue(old(listeners), name))
      ensures old(emitted) + [Topic(name, Unlocked)] <= emitted
      ensures Touches(name, old(records), old(listeners))
    {
      NewestBalance(counters, fired, listeners, [], unissued);
      InvIssue(records, emitted, counters, fired, listeners, name, unissued);
      unissued := unissued - 1;
      ghost var before := counters;
      Unlock(name, Count(c), []);
      LimitsAt(counters, c);
      LimitsAt(before, c);
      NewestBalance(counters, fired, listeners, [], unissued);
    }
  }
}
