/** The listener table of an event emitter (`on`, `once`, `emit`), as both the
    task and the named-event lock use it. A listener is kept with the event it
    listens to, whether it is one-shot, and a handler describing what it does. */
module Emitter {

  datatype Listener<E, H> = Listener(event: E, once: bool, handler: H)

  /** The listeners an emission of `e` calls, in registration order. */
  function Matching<E(==), H>(ls: seq<Listener<E, H>>, e: E): (r: seq<Listener<E, H>>)
    ensures |r| <= |ls|
  {
    if ls == [] then []
    else (if ls[0].event == e then [ls[0]] else []) + Matching(ls[1..], e)
  }

  /** The table after an emission of `e`: the one-shot listeners of `e` are gone. */
  function AfterEmit<E(==), H>(ls: seq<Listener<E, H>>, e: E): (r: seq<Listener<E, H>>)
    ensures |r| <= |ls|
  {
    if ls == [] then []
    else (if ls[0].event == e && ls[0].once then [] else [ls[0]]) + AfterEmit(ls[1..], e)
  }

  /** The listeners of a list that are not one-shot. */
  function PersistentOf<E, H>(ls: seq<Listener<E, H>>): (r: seq<Listener<E, H>>)
    ensures |r| <= |ls|
  {
    if ls == [] then [] else (if ls[0].once then [] else [ls[0]]) + PersistentOf(ls[1..])
  }

  /** An emission reaches exactly the listeners registered for its event. */
  lemma {:induction false} MatchingMembers<E, H>(ls: seq<Listener<E, H>>, e: E)
    ensures forall l :: l in Matching(ls, e) <==> l in ls && l.event == e
  {
    if ls != [] {
      MatchingMembers(ls[1..], e);
      assert ls == [ls[0]] + ls[1..];
    }
  }

  /** An emission removes exactly the one-shot listeners of its event. */
  lemma {:induction false} AfterEmitMembers<E, H>(ls: seq<Listener<E, H>>, e: E)
    ensures forall l :: l in AfterEmit(ls, e) <==> l in ls && !(l.event == e && l.once)
  {
    if ls != [] {
      AfterEmitMembers(ls[1..], e);
      assert ls == [ls[0]] + ls[1..];
    }
  }

  lemma {:induction false} MatchingAppend<E, H>(a: seq<Listener<E, H>>, b: seq<Listener<E, H>>, e: E)
    ensures Matching(a + b, e) == Matching(a, e) + Matching(b, e)
  {
    if a != [] {
      assert (a + b)[0] == a[0] && (a + b)[1..] == a[1..] + b;
      MatchingAppend(a[1..], b, e);
      var h := if a[0].event == e then [a[0]] else [];
      assert Matching(a + b, e) == h + (Matching(a[1..], e) + Matching(b, e));
    } else {
      assert a + b == b;
    }
  }

  lemma {:induction false} AfterEmitAppend<E, H>(a: seq<Listener<E, H>>, b: seq<Listener<E, H>>, e: E)
    ensures AfterEmit(a + b, e) == AfterEmit(a, e) + AfterEmit(b, e)
  {
    if a != [] {
      assert (a + b)[0] == a[0] && (a + b)[1..] == a[1..] + b;
      AfterEmitAppend(a[1..], b, e);
      var h := if a[0].event == e && a[0].once then [] else [a[0]];
      assert AfterEmit(a + b, e) == h + (AfterEmit(a[1..], e) + AfterEmit(b, e));
    } else {
      assert a + b == b;
    }
  }

  lemma {:induction false} PersistentAppend<E, H>(a: seq<Listener<E, H>>, b: seq<Listener<E, H>>)
    ensures PersistentOf(a + b) == PersistentOf(a) + PersistentOf(b)
  {
    if a != [] {
      assert (a + b)[0] == a[0] && (a + b)[1..] == a[1..] + b;
      PersistentAppend(a[1..], b);
      var h := if a[0].once then [] else [a[0]];
      assert PersistentOf(a + b) == h + (PersistentOf(a[1..]) + PersistentOf(b));
    } else {
      assert a + b == b;
    }
  }

  /** A one-shot listener fires at most once: a second emission of the same event
      reaches only the persistent listeners the first one reached, in order. */
  lemma {:induction false} OnceFiresOnce<E, H>(ls: seq<Listener<E, H>>, e: E)
    ensures Matching(AfterEmit(ls, e), e) == PersistentOf(Matching(ls, e))
  {
    if ls != [] {
      OnceFiresOnce(ls[1..], e);
      var l := ls[0];
      var rest := AfterEmit(ls[1..], e);
      var kept := if l.event == e && l.once then [] else [l];
      assert AfterEmit(ls, e) == kept + rest;
      MatchingAppend(kept, rest, e);
      var m := if l.event == e then [l] else [];
      assert Matching(ls, e) == m + Matching(ls[1..], e);
      PersistentAppend(m, Matching(ls[1..], e));
    }
  }

  /** Emitting one event leaves the listeners of every other event, and their
      order, as they were. */
  lemma {:induction false} OtherEventsUntouched<E, H>(ls: seq<Listener<E, H>>, e: E, e': E)
    requires e != e'
    ensures Matching(AfterEmit(ls, e), e') == Matching(ls, e')
  {
    if ls != [] {
      OtherEventsUntouched(ls[1..], e, e');
      var l := ls[0];
      var kept := if l.event == e && l.once then [] else [l];
      assert AfterEmit(ls, e) == kept + AfterEmit(ls[1..], e);
      MatchingAppend(kept, AfterEmit(ls[1..], e), e');
    }
  }
}
