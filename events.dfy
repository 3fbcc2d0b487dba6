/**
  The part of Node's EventEmitter the recorder uses: one listener list for the "record"
  event, registration, removal of one registration, removal of all, and delivery of a
  record to every registered listener.
 */
module Events {
  import opened Js

  /** Identities of the request and response objects a record refers to. */
  type RequestRef = nat
  type ResponseRef = nat

  type Listener = FnRef

  /** The payload of a "record" event; P is the type of one response chunk. */
  datatype Record<P> = Record(request: RequestRef, requestBody: seq<Bytes>, response: ResponseRef, responseBody: seq<P>)

  /** One listener called with one record. */
  datatype Delivery<P> = Delivery(listener: Listener, record: Record<P>)

  /** The position of the most recent registration of `x`. */
  function LastIndex(xs: seq<Listener>, x: Listener): (i: nat)
    requires x in xs
    ensures i < |xs| && xs[i] == x
    ensures x !in xs[i + 1..]
    decreases |xs|
  {
    if xs[|xs| - 1] == x then |xs| - 1
    else
      assert x in xs[..|xs| - 1] by {
        var k :| 0 <= k < |xs| && xs[k] == x;
        assert k < |xs| - 1 && xs[..|xs| - 1][k] == x;
      }
      var i := LastIndex(xs[..|xs| - 1], x);
      assert xs[i + 1..] == xs[..|xs| - 1][i + 1..] + [xs[|xs| - 1]];
      i
  }

  /**
    The listener list after `off(x)`: like Node's removeListener, it searches from the end
    and removes the most recent registration of x, if there is one.
   */
  function RemoveLast(xs: seq<Listener>, x: Listener): (r: seq<Listener>)
    ensures |r| == if x in xs then |xs| - 1 else |xs|
    decreases |xs|
  {
    if xs == [] then []
    else if xs[|xs| - 1] == x then xs[..|xs| - 1]
    else
      assert x in xs <==> x in xs[..|xs| - 1] by {
        assert xs == xs[..|xs| - 1] + [xs[|xs| - 1]];
      }
      RemoveLast(xs[..|xs| - 1], x) + [xs[|xs| - 1]]
  }

  /** Removing the last registration of x deletes exactly that position and keeps the order of the rest. */
  lemma {:induction false} RemoveLastAt(xs: seq<Listener>, x: Listener)
    ensures x !in xs ==> RemoveLast(xs, x) == xs
    ensures x in xs ==> RemoveLast(xs, x) == xs[..LastIndex(xs, x)] + xs[LastIndex(xs, x) + 1..]
    decreases |xs|
  {
    if xs != [] && xs[|xs| - 1] != x {
      var init := xs[..|xs| - 1];
      assert xs == init + [xs[|xs| - 1]];
      RemoveLastAt(init, x);
      if x in xs {
        assert x in init;
        var i := LastIndex(init, x);
        assert LastIndex(xs, x) == i;
        assert xs[..i] == init[..i];
        assert xs[i + 1..] == init[i + 1..] + [xs[|xs| - 1]];
      }
    }
  }

  /** `off(x)` removes exactly one registration of x, and none of any other listener. */
  lemma {:induction false} RemoveLastMultiset(xs: seq<Listener>, x: Listener)
    ensures multiset(RemoveLast(xs, x)) == multiset(xs) - multiset{x}
    decreases |xs|
  {
    if xs != [] {
      var init, last := xs[..|xs| - 1], xs[|xs| - 1];
      assert xs == init + [last];
      assert multiset(xs) == multiset(init) + multiset{last};
      if last != x {
        RemoveLastMultiset(init, x);
        assert multiset(RemoveLast(xs, x)) == multiset(RemoveLast(init, x)) + multiset{last};
      }
    }
  }

  /** `on(x)` followed by `off(x)` gives back the listener list as it was. */
  lemma OffUndoesOn(xs: seq<Listener>, x: Listener)
    ensures RemoveLast(xs + [x], x) == xs
  {
    assert (xs + [x])[..|xs|] == xs;
  }

  /** `Buffer.concat(chunks)`: the bytes of all chunks, in order. */
  function Concat(chunks: seq<Bytes>): (b: Bytes)
    decreases |chunks|
  {
    if chunks == [] then [] else Concat(chunks[..|chunks| - 1]) + chunks[|chunks| - 1]
  }

  /** What emitting `record` does: each registration, in order, is called once with it. */
  function Fanout<P>(listeners: seq<Listener>, record: Record<P>): (ds: seq<Delivery<P>>)
    ensures |ds| == |listeners|
    ensures forall d :: d in ds ==> d.record == record && d.listener in listeners
  {
    seq(|listeners|, i requires 0 <= i < |listeners| => Delivery(listeners[i], record))
  }

  /** A listener receives an emitted record if and only if it is registered, once per registration. */
  lemma {:induction false} FanoutReaches<P>(listeners: seq<Listener>, record: Record<P>, l: Listener)
    ensures Delivery(l, record) in Fanout(listeners, record) <==> l in listeners
    ensures multiset(Fanout(listeners, record))[Delivery(l, record)] == multiset(listeners)[l]
    decreases |listeners|
  {
    if listeners != [] {
      var init := listeners[..|listeners| - 1];
      var last := listeners[|listeners| - 1];
      assert listeners == init + [last];
      assert Fanout(listeners, record) == Fanout(init, record) + [Delivery(last, record)];
      FanoutReaches(init, record, l);
    }
  }

  /** A callback not registered before, registered with `on` and removed again with `off`, receives no record. */
  lemma OnThenOffSilences<P>(xs: seq<Listener>, cb: Listener, record: Record<P>)
    requires cb !in xs
    ensures Delivery(cb, record) !in Fanout(RemoveLast(xs + [cb], cb), record)
  {
    OffUndoesOn(xs, cb);
    FanoutReaches(xs, record, cb);
  }

  /** The listener list of one emitter, restricted to the "record" event. */
  class RecordEmitter<P> {
    var listeners: seq<Listener>
    /** Every listener call made so far, in order. */
    var deliveries: seq<Delivery<P>>

    constructor ()
      ensures listeners == [] && deliveries == []
    {
      listeners := [];
      deliveries := [];
    }

    /** `emitter.on("record", l)`: registrations are kept in order, duplicates included. */
    method AddListener(l: Listener)
      modifies this`listeners
      ensures listeners == old(listeners) + [l]
    {
      listeners := listeners + [l];
    }

    /** `emitter.off("record", l)`. */
    method RemoveListener(l: Listener)
      modifies this`listeners
      ensures listeners == RemoveLast(old(listeners), l)
      ensures multiset(listeners) == multiset(old(listeners)) - multiset{l}
    {
      RemoveLastMultiset(listeners, l);
      listeners := RemoveLast(listeners, l);
    }

    /** `emitter.removeAllListeners("record")`. */
    method RemoveAllListeners()
      modifies this`listeners
      ensures listeners == []
    {
      listeners := [];
    }

    /** `emitter.emit("record", record)`: returns whether any listener was registered. */
    method Emit(record: Record<P>) returns (hadListeners: bool)
      modifies this`deliveries
      ensures hadListeners <==> listeners != []
      ensures deliveries == old(deliveries) + Fanout(listeners, record)
    {
      deliveries := deliveries + Fanout(listeners, record);
      hadListeners := |listeners| > 0;
    }
  }
}
