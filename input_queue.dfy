/** The runner's input queue: a buffered hand-off from producers (caller turns and
    script-result follow-ups) to the one consumer (the session's prompt stream), with a
    FIFO list of consumers blocked in `getNext` and a `closed` flag. */
module InputQueues {
  import opened Wrappers

  /** A blocked `getNext` call, standing for the promise resolver it registered. */
  type WaiterId = nat

  /** What `getNext` gives back: a value at once (`null` is `None`), or a promise that
      stays pending until `add` or `close` resolves the waiter. */
  datatype Pull = Ready(item: Option<string>) | Pending(waiter: WaiterId)

  /** `resolved` after each waiter of `ws` has been resolved with null: exactly
      those waiters are added, each with null, and nothing else changes. */
  function ResolvedWithNull(m: map<WaiterId, Option<string>>, ws: seq<WaiterId>)
    : (r: map<WaiterId, Option<string>>)
    ensures r.Keys == m.Keys + set w | w in ws
    ensures forall w :: w in ws ==> r[w] == None
    ensures forall w :: w in m && w !in ws ==> r[w] == m[w]
  {
    if ws == [] then m
    else ResolvedWithNull(m, ws[..|ws| - 1])[ws[|ws| - 1] := None]
  }

  /** The queue's fields, as one value. */
  datatype QueueState = QueueState(queue: seq<string>, waiters: seq<WaiterId>, closed: bool,
                                   resolved: map<WaiterId, Option<string>>, nextWaiter: WaiterId,
                                   accepted: seq<string>, delivered: seq<string>)

  /** The queue after `add(item)`: a closed queue ignores the item; an open one hands it
      to the oldest waiter, or, with no waiter, appends it to the queue. */
  function Added(s: QueueState, item: string): QueueState
  {
    if s.closed then s
    else if s.waiters != [] then
      s.(resolved := s.resolved[s.waiters[0] := Some(item)], waiters := s.waiters[1..],
         accepted := s.accepted + [item], delivered := s.delivered + [item])
    else s.(queue := s.queue + [item], accepted := s.accepted + [item])
  }

  /** The queue after `add` of each item in turn. */
  function AddedAll(s: QueueState, items: seq<string>): QueueState
    decreases |items|
  {
    if items == [] then s else AddedAll(Added(s, items[0]), items[1..])
  }

  /** The queue's invariant, over its fields' values. */
  ghost predicate QueueInvariant(queue: seq<string>, waiters: seq<WaiterId>, closed: bool,
                                 resolved: map<WaiterId, Option<string>>, nextWaiter: WaiterId,
                                 accepted: seq<string>, delivered: seq<string>)
  {
    // items wait only when no consumer does
    && (|queue| > 0 ==> waiters == [])
    // a closed queue has no blocked consumers
    && (closed ==> waiters == [])
    // FIFO: what was handed out, followed by what still waits, is what was accepted
    && accepted == delivered + queue
    // waiters are registered in increasing order and are still unresolved
    && (forall i, j :: 0 <= i < j < |waiters| ==> waiters[i] < waiters[j])
    && (forall i :: 0 <= i < |waiters| ==> waiters[i] < nextWaiter && waiters[i] !in resolved)
    && (forall w :: w in resolved ==> w < nextWaiter)
    // every waiter ever registered is either resolved or still waiting
    && (forall w: WaiterId :: w < nextWaiter ==> w in resolved || w in waiters)
  }

  /** Closing keeps the invariant. */
  lemma CloseKeepsInvariant(queue: seq<string>, waiters: seq<WaiterId>, closed: bool,
                            resolved: map<WaiterId, Option<string>>, nextWaiter: WaiterId,
                            accepted: seq<string>, delivered: seq<string>)
    requires QueueInvariant(queue, waiters, closed, resolved, nextWaiter, accepted, delivered)
    ensures QueueInvariant(queue, [], true, ResolvedWithNull(resolved, waiters), nextWaiter,
                           accepted, delivered)
  {
    var r := ResolvedWithNull(resolved, waiters);
    forall w | w in r ensures w < nextWaiter {
      if w !in resolved {
        var i :| 0 <= i < |waiters| && waiters[i] == w;
      }
    }
  }

  class InputQueue {
    var queue: seq<string>
    var waiters: seq<WaiterId>
    var closed: bool
    /** How each resolved waiter was resolved: with an item, or with null. */
    var resolved: map<WaiterId, Option<string>>
    /** The identity the next registered waiter receives. */
    var nextWaiter: WaiterId
    /** Every item `add` accepted, in order. */
    ghost var accepted: seq<string>
    /** The accepted items handed out so far (returned by `getNext` or given to a waiter),
        in order. */
    ghost var delivered: seq<string>

    ghost function Contents(): QueueState
      reads this
    {
      QueueState(queue, waiters, closed, resolved, nextWaiter, accepted, delivered)
    }

    ghost predicate Valid()
      reads this
    {
      QueueInvariant(queue, waiters, closed, resolved, nextWaiter, accepted, delivered)
    }

    constructor ()
      ensures Valid()
      ensures queue == [] && waiters == [] && !closed && resolved == map[]
      ensures accepted == [] && delivered == []
    {
      queue := [];
      waiters := [];
      closed := false;
      resolved := map[];
      nextWaiter := 0;
      accepted := [];
      delivered := [];
    }

    /** `getNext`: null at once when closed; else the head of the queue, removed; else a
        new waiter at the back of the waiter list. */
    method GetNext() returns (r: Pull)
      requires Valid()
      modifies this
      ensures Valid()
      ensures closed == old(closed) && accepted == old(accepted) && resolved == old(resolved)
      ensures old(closed) ==> r == Ready(None) && queue == old(queue)
                              && waiters == old(waiters) && delivered == old(delivered)
      ensures !old(closed) && old(queue) != [] ==>
                r == Ready(Some(old(queue)[0])) && queue == old(queue)[1..]
                && waiters == old(waiters) && delivered == old(delivered) + [old(queue)[0]]
      ensures !old(closed) && old(queue) == [] ==>
                r.Pending? && r.waiter !in old(waiters) && r.waiter !in resolved
                && waiters == old(waiters) + [r.waiter]
                && queue == [] && delivered == old(delivered)
    {
      if closed {
        r := Ready(None);
      } else if |queue| > 0 {
        r := Ready(Some(queue[0]));
        delivered := delivered + [queue[0]];
        queue := queue[1..];
      } else {
        r := Pending(nextWaiter);
        waiters := waiters + [nextWaiter];
        nextWaiter := nextWaiter + 1;
      }
    }

    /** `add`: ignored when closed; else the oldest waiter is resolved with the item, or,
        with no waiter, the item joins the back of the queue. */
    method Add(input: string)
      requires Valid()
      modifies this
      ensures Valid()
      ensures closed == old(closed) && nextWaiter == old(nextWaiter)
      ensures old(closed) ==> queue == old(queue) && waiters == old(waiters)
                              && resolved == old(resolved) && accepted == old(accepted)
                              && delivered == old(delivered)
      ensures !old(closed) ==> accepted == old(accepted) + [input]
      ensures !old(closed) && old(waiters) != [] ==>
                resolved == old(resolved)[old(waiters)[0] := Some(input)]
                && waiters == old(waiters)[1..] && queue == old(queue)
                && delivered == old(delivered) + [input]
      ensures !old(closed) && old(waiters) == [] ==>
                queue == old(queue) + [input] && waiters == old(waiters)
                && resolved == old(resolved) && delivered == old(delivered)
      ensures Contents() == Added(old(Contents()), input)
    {
      if closed {
        return;
      }
      accepted := accepted + [input];
      if |waiters| > 0 {
        resolved := resolved[waiters[0] := Some(input)];
        delivered := delivered + [input];
        waiters := waiters[1..];
      } else {
        queue := queue + [input];
      }
    }

    /** `close`: marks the queue closed and resolves every current waiter with null,
        leaving none. On a closed queue it changes nothing. */
    method Close()
      requires Valid()
      modifies this
      ensures Valid()
      ensures closed && waiters == []
      ensures queue == old(queue) && nextWaiter == old(nextWaiter)
      ensures accepted == old(accepted) && delivered == old(delivered)
      ensures resolved == ResolvedWithNull(old(resolved), old(waiters))
      ensures forall w :: w in old(waiters) ==> w !in old(resolved)
      ensures old(closed) ==> resolved == old(resolved)
    {
      var settled := resolved;
      var i := 0;
      while i < |waiters|
        invariant 0 <= i <= |waiters|
        invariant settled == ResolvedWithNull(resolved, waiters[..i])
      {
        assert waiters[..i + 1][..i] == waiters[..i];
        settled := settled[waiters[i] := None];
        i := i + 1;
      }
      assert waiters[..i] == waiters;
      CloseKeepsInvariant(queue, waiters, closed, resolved, nextWaiter, accepted, delivered);
      closed := true;
      resolved := settled;
      waiters := [];
    }

    /** `isClosed`: a queue that reports itself closed has no consumer blocked on it. */
    predicate IsClosed(): (b: bool)
      reads this
      requires Valid()
      ensures b <==> closed
      ensures b ==> waiters == []
    {
      closed
    }
  }
}
