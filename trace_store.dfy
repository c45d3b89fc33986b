/**
 * The in-memory trace store of the dashboard (`demo-ui/src/lib/traceStore.ts`): a
 * newest-first window of at most 100 decoded commit traces and a set of listeners that
 * are called, in registration order, with every trace added.
 *
 * Listener callbacks are represented by handles; what a callback would observe is kept
 * in a ghost delivery log: one entry per call, recording the listener, the trace passed
 * to it and the window as it stood at the moment of the call.
 */
module TraceStore {
  import opened Seqs

  /** One decoded commit trace; every field is text, `""` when upstream had no value. */
  datatype ParsedTrace = ParsedTrace(
    id: string,
    timestamp: string,
    traceId: string,
    spanId: string,
    commitId: string,
    commitShort: string,
    message: string,
    author: string,
    email: string,
    branch: string,
    repo: string,
    aiStats: string)

  /** The largest number of traces the window keeps. */
  const Capacity: nat := 100

  /** A registered listener callback, identified by a handle. */
  type ListenerId = nat

  /** One listener call: who was called, with which trace, and the window it could read. */
  datatype Delivery = Delivery(listener: ListenerId, trace: ParsedTrace, window: seq<ParsedTrace>)

  /**
   * Reference definition of the window: the last `Capacity` traces of the whole ingestion
   * history (oldest first), newest first, repeated traces kept.
   */
  function Newest(history: seq<ParsedTrace>): seq<ParsedTrace> {
    var n := if |history| < Capacity then |history| else Capacity;
    seq(n, i requires 0 <= i < n => history[|history| - 1 - i])
  }

  /** The window after one `addTrace`: `unshift`, then keep the first `Capacity` entries. */
  function Prepend(window: seq<ParsedTrace>, t: ParsedTrace): seq<ParsedTrace> {
    var grown := [t] + window;
    if |grown| > Capacity then grown[..Capacity] else grown
  }

  /** The added trace comes first, followed by the old window cut to fit. */
  lemma PrependShape(window: seq<ParsedTrace>, t: ParsedTrace)
    ensures |window| < Capacity ==> |Prepend(window, t)| == |window| + 1
    ensures |window| >= Capacity ==> |Prepend(window, t)| == Capacity
    ensures Prepend(window, t)[0] == t
    ensures Prepend(window, t)[1..] == window[..|Prepend(window, t)| - 1]
  {
  }

  /** The window after adding `ts` in order, starting from `window`. */
  function Replay(window: seq<ParsedTrace>, ts: seq<ParsedTrace>): seq<ParsedTrace> {
    if ts == [] then window else Prepend(Replay(window, ts[..|ts| - 1]), ts[|ts| - 1])
  }

  /** The calls one `addTrace(t)` makes: each listener, in registration order, once. */
  function Notify(listeners: seq<ListenerId>, t: ParsedTrace, window: seq<ParsedTrace>): (r: seq<Delivery>)
    ensures |r| == |listeners|
    ensures forall i :: 0 <= i < |r| ==> r[i] == Delivery(listeners[i], t, window)
  {
    if listeners == [] then []
    else Notify(listeners[..|listeners| - 1], t, window) + [Delivery(listeners[|listeners| - 1], t, window)]
  }

  /** The calls made while adding `ts` in order, starting from `window`, with a fixed registry. */
  function ReplayLog(listeners: seq<ListenerId>, window: seq<ParsedTrace>, ts: seq<ParsedTrace>): seq<Delivery> {
    if ts == [] then []
    else ReplayLog(listeners, window, ts[..|ts| - 1]) + Notify(listeners, ts[|ts| - 1], Replay(window, ts))
  }

  /** The deliveries of a log that went to listener `l`, in order. */
  function DeliveriesTo(log: seq<Delivery>, l: ListenerId): seq<Delivery> {
    Filter(log, (d: Delivery) => d.listener == l)
  }

  /** `Set.add`: a listener already registered keeps its place; a new one goes last. */
  function Register(listeners: seq<ListenerId>, l: ListenerId): (r: seq<ListenerId>)
    ensures NoDuplicates(listeners) ==> NoDuplicates(r)
    ensures forall x :: x in r <==> x in listeners || x == l
    ensures l in listeners ==> r == listeners
    ensures l !in listeners ==> r == listeners + [l]
  {
    if l in listeners then listeners else listeners + [l]
  }

  /** `Set.delete`: the listener is gone; every other keeps its place. */
  function Deregister(listeners: seq<ListenerId>, l: ListenerId): (r: seq<ListenerId>)
    ensures NoDuplicates(listeners) ==> NoDuplicates(r)
    ensures forall x :: x in r <==> x in listeners && x != l
    ensures IsSubsequence(r, listeners)
  {
    var r := Filter(listeners, (x: ListenerId) => x != l);
    FilterIsSubsequence(listeners, (x: ListenerId) => x != l);
    FilterNoDuplicates(listeners, (x: ListenerId) => x != l);
    r
  }

  /** Unsubscribing a listener just subscribed restores the registry it joined. */
  lemma RegisterThenDeregister(listeners: seq<ListenerId>, l: ListenerId)
    requires l !in listeners
    ensures Deregister(Register(listeners, l), l) == listeners
  {
    var p := (x: ListenerId) => x != l;
    FilterKeepsAll(listeners, p);
    FilterSnoc(listeners, l, p);
  }

  /** Adding to the window of a history gives the window of the longer history. */
  lemma PrependNewest(history: seq<ParsedTrace>, t: ParsedTrace)
    ensures Prepend(Newest(history), t) == Newest(history + [t])
  {
    var a, b := Prepend(Newest(history), t), Newest(history + [t]);
    PrependShape(Newest(history), t);
    assert |a| == |b|;
    forall i | 0 <= i < |a| ensures a[i] == b[i] {
      if i > 0 {
        assert a[i] == a[1..][i - 1];
      }
    }
  }

  /**
   * Adding `ts` to the window of `history` gives the window of `history + ts`; from an
   * empty store, the window after `k` adds holds the last `min(k, 100)` traces, newest first.
   */
  lemma {:induction false} ReplayNewest(history: seq<ParsedTrace>, ts: seq<ParsedTrace>)
    ensures Replay(Newest(history), ts) == Newest(history + ts)
  {
    if ts == [] {
      assert history + ts == history;
    } else {
      var init, t := ts[..|ts| - 1], ts[|ts| - 1];
      ReplayNewest(history, init);
      PrependNewest(history + init, t);
      assert history + init + [t] == history + ts;
    }
  }

  /** The window after any number of adds from empty, stated index by index. */
  lemma WindowAfterAdds(ts: seq<ParsedTrace>)
    ensures |Replay([], ts)| == if |ts| < Capacity then |ts| else Capacity
    ensures forall i :: 0 <= i < |Replay([], ts)| ==> Replay([], ts)[i] == ts[|ts| - 1 - i]
  {
    ReplayNewest([], ts);
    assert [] + ts == ts;
    assert Newest([]) == [];
    assert Replay([], ts) == Newest(ts);
  }

  /**
   * A registered listener gets exactly one call per added trace, carrying that trace and
   * the updated window; a listener not registered gets none.
   */
  lemma {:induction false} DeliveredOnce(listeners: seq<ListenerId>, t: ParsedTrace, window: seq<ParsedTrace>, l: ListenerId)
    requires NoDuplicates(listeners)
    ensures DeliveriesTo(Notify(listeners, t, window), l) ==
            if l in listeners then [Delivery(l, t, window)] else []
  {
    var p := (d: Delivery) => d.listener == l;
    if listeners != [] {
      var init, last := listeners[..|listeners| - 1], listeners[|listeners| - 1];
      DeliveredOnce(init, t, window, l);
      FilterSnoc(Notify(init, t, window), Delivery(last, t, window), p);
      assert l in listeners <==> l in init || l == last;
      assert last !in init;
    }
  }

  class Store {
    /** The window, newest first. */
    var traces: seq<ParsedTrace>
    /** The registered listeners, in registration order. */
    var listeners: seq<ListenerId>
    /** Every trace ever added, oldest first. */
    ghost var history: seq<ParsedTrace>
    /** Every listener call made so far, in order. */
    ghost var log: seq<Delivery>

    ghost predicate Valid()
      reads this
    {
      traces == Newest(history) && NoDuplicates(listeners)
    }

    constructor ()
      ensures Valid()
      ensures traces == [] && listeners == [] && history == [] && log == []
    {
      traces := [];
      listeners := [];
      history := [];
      log := [];
    }

    /** `addTrace`: prepend, cap the window, then call every listener with the trace. */
    method AddTrace(t: ParsedTrace)
      requires Valid()
      modifies this
      ensures Valid()
      ensures history == old(history) + [t]
      ensures traces == Prepend(old(traces), t)
      ensures listeners == old(listeners)
      ensures log == old(log) + Notify(listeners, t, traces)
    {
      traces := [t] + traces;
      if |traces| > Capacity {
        traces := traces[..Capacity];
      }
      history := history + [t];
      PrependNewest(old(history), t);
      var i := 0;
      while i < |listeners|
        invariant 0 <= i <= |listeners|
        invariant traces == Prepend(old(traces), t) && history == old(history) + [t]
        invariant listeners == old(listeners)
        invariant log == old(log) + Notify(listeners[..i], t, traces)
      {
        assert listeners[..i + 1][..i] == listeners[..i];
        log := log + [Delivery(listeners[i], t, traces)];
        i := i + 1;
      }
      assert listeners[..i] == listeners;
    }

    /** `getTraces`: a copy of the window, newest first; nothing changes. */
    method GetTraces() returns (r: seq<ParsedTrace>)
      requires Valid()
      ensures r == traces
      ensures |r| <= Capacity
      ensures forall i :: 0 <= i < |r| ==> r[i] == history[|history| - 1 - i]
    {
      r := traces;
    }

    /** `subscribe`: add the listener to the set (a second add is ignored). */
    method Subscribe(l: ListenerId)
      requires Valid()
      modifies this
      ensures Valid()
      ensures listeners == Register(old(listeners), l)
      ensures traces == old(traces) && history == old(history) && log == old(log)
    {
      if l !in listeners {
        listeners := listeners + [l];
      }
    }

    /** The closure `subscribe` returns: remove the listener from the set. */
    method Unsubscribe(l: ListenerId)
      requires Valid()
      modifies this
      ensures Valid()
      ensures listeners == Deregister(old(listeners), l)
      ensures traces == old(traces) && history == old(history) && log == old(log)
    {
      listeners := Deregister(listeners, l);
    }
  }

  /**
   * After unsubscribing `l`, adding a trace calls every other registered listener once
   * and `l` not at all; the window is updated as usual.
   */
  method UnsubscribeThenAdd(store: Store, l: ListenerId, t: ParsedTrace)
    requires store.Valid()
    modifies store
    ensures store.Valid()
    ensures store.traces == Prepend(old(store.traces), t)
    ensures |old(store.log)| <= |store.log|
    ensures DeliveriesTo(store.log[|old(store.log)|..], l) == []
    ensures forall other :: other != l && other in old(store.listeners) ==>
              DeliveriesTo(store.log[|old(store.log)|..], other) == [Delivery(other, t, store.traces)]
  {
    store.Unsubscribe(l);
    store.AddTrace(t);
    ghost var added := store.log[|old(store.log)|..];
    assert added == Notify(store.listeners, t, store.traces);
    DeliveredOnce(store.listeners, t, store.traces, l);
    forall other | other != l && other in old(store.listeners)
      ensures DeliveriesTo(added, other) == [Delivery(other, t, store.traces)]
    {
      DeliveredOnce(store.listeners, t, store.traces, other);
    }
  }
}
