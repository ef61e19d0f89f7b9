/**
  The chain of promises that serializes the operations of a workspace. Each operation is chained to the
  promise that `operationTail` holds when it is asked for, and leaves a new tail that settles after it, whether
  it succeeded or failed. When a callback runs is up to the event loop: any that may run can run next.
  `SyncScheduler` works on the queue that comes of this: `Follow` shows that the two go together, step by step.
*/
module PromiseChain {
  import opened Options
  import S = SyncScheduler

  datatype Call = Waiting | Running | Over(ok: bool)

  datatype Event = Asking | Starting(i: nat) | Settling(i: nat, ok: bool) | Draining(i: nat)

  class Operations {
    /** Each call, and the tail promise it is chained to. */
    var calls: seq<Call>
    var after: seq<nat>
    /** Which tail promises have settled; the first one is there from the start. */
    var settled: seq<bool>
    var operationTail: nat
    var pendingOperations: nat
    ghost var history: seq<S.Mark>
    /** How many calls are over, and how many tails after them have settled. */
    ghost var over: nat
    ghost var drained: nat

    /** The chain has the form of a queue: calls that are over, at most one that runs, and calls that wait. */
    ghost predicate Valid()
      reads this
    {
      && |after| == |calls| && |settled| == |calls| + 1 && operationTail == |calls|
      && drained <= over <= |calls| && over <= drained + 1
      && pendingOperations == |calls| - drained
      && (forall i: nat | i < |calls| :: after[i] == i)
      && (forall i: nat | i < |settled| :: settled[i] <==> i <= drained)
      && (forall i: nat | i < |calls| :: calls[i].Over? <==> i < over)
      && (forall i: nat | i < |calls| && calls[i].Running? :: i == over <= drained)
      && S.Serial(history) && |history| == 2 * over + if over < |calls| && calls[over].Running? then 1 else 0
    }

    constructor ()
      ensures Valid() && calls == [] && history == [] && pendingOperations == 0
    {
      calls, after, settled, operationTail, pendingOperations := [], [], [true], 0, 0;
      history, over, drained := [], 0, 0;
    }

    /** Ask for an operation: chain it to the tail, and make its own tail the one that the next is chained to. */
    method Serialize() returns (id: nat)
      requires Valid()
      modifies this`calls, this`after, this`settled, this`operationTail, this`pendingOperations
      ensures Valid() && id == |old(calls)| && calls == old(calls) + [Waiting]
      ensures pendingOperations == old(pendingOperations) + 1
    {
      id := |calls|;
      pendingOperations := pendingOperations + 1;
      calls, after := calls + [Waiting], after + [operationTail];
      operationTail := |settled|;
      settled := settled + [false];
    }

    /** The callback of a call may run. */
    predicate MayStart(i: nat)
      requires Valid()
      reads this
    {
      i < |calls| && calls[i].Waiting? && settled[after[i]]
    }

    predicate MayDrain(i: nat)
      requires Valid()
      reads this
    {
      i < |calls| && calls[i].Over? && !settled[i + 1]
    }

    /** Only the first call that is not over may start, and only when nothing runs; the queue is exactly this. */
    lemma OnlyTheHeadMayStart(i: nat)
      requires Valid()
      ensures MayStart(i) ==>
        (forall j: nat | j < i :: calls[j].Over?) && (forall j: nat | i <= j < |calls| :: calls[j].Waiting?)
      ensures i < |calls| && (forall j: nat | j < i :: calls[j].Over?) && calls[i].Waiting? ==>
        MayStart(i) || (i > 0 && MayDrain(i - 1))
    {
    }

    /** No failure stops the chain: while an operation is pending, something runs or may run. */
    lemma SomethingMayHappen()
      requires Valid() && pendingOperations > 0
      ensures exists i: nat | i < |calls| :: MayStart(i) || calls[i].Running? || MayDrain(i)
    {
      if over < |calls| {
        if over <= drained {
          assert MayStart(over) || calls[over].Running?;
        } else {
          assert MayDrain(drained);
        }
      } else {
        assert MayDrain(drained);
      }
    }

    /** What a shutdown waits for: the tail has settled exactly if no operation is pending, and then all are over. */
    lemma TailMeansAllOver()
      requires Valid()
      ensures settled[operationTail] <==> pendingOperations == 0
      ensures settled[operationTail] ==> forall i: nat | i < |calls| :: calls[i].Over?
    {
    }

    method Start(i: nat)
      requires Valid() && MayStart(i)
      modifies this`calls, this`history
      ensures Valid() && calls == old(calls)[i := Running] && history == old(history) + [S.Begun(i)]
    {
      calls := calls[i := Running];
      history := history + [S.Begun(i)];
    }

    method Settle(i: nat, ok: bool)
      requires Valid() && i < |calls| && calls[i].Running?
      modifies this`calls, this`history, this`over
      ensures Valid() && calls == old(calls)[i := Over(ok)] && history == old(history) + [S.Ended(i)]
    {
      calls := calls[i := Over(ok)];
      history := history + [S.Ended(i)];
      over := over + 1;
    }

    method Drain(i: nat)
      requires Valid() && MayDrain(i)
      modifies this`settled, this`pendingOperations, this`drained
      ensures Valid() && settled == old(settled)[i + 1 := true] && pendingOperations == old(pendingOperations) - 1
    {
      settled := settled[i + 1 := true];
      pendingOperations := pendingOperations - 1;
      drained := drained + 1;
    }

    /** Let the first call that is not over begin, if it has not, and end. */
    method Advance(finish: bool)
      requires Valid() && over < |calls| && (!finish ==> calls[over].Waiting?)
      modifies this
      ensures Valid() && |calls| == |old(calls)| && over == old(over) + if finish then 1 else 0
      ensures old(history) <= history && |history| == 2 * over + if finish then 0 else 1
    {
      var i := Ended();
      if calls[i].Waiting? {
        if !settled[i] {
          Drain(i - 1);
        }
        Start(i);
      }
      if finish {
        Settle(i, true);
      }
    }

    /** Let so many calls end, and one more begin. */
    method CatchUp(ended: nat, running: bool, ghost marks: seq<S.Mark>)
      requires Valid() && S.Serial(marks) && history <= marks && |marks| == 2 * ended + if running then 1 else 0
      requires ended + (if running then 1 else 0) <= |calls|
      modifies this
      ensures Valid() && |calls| == |old(calls)| && history == marks
    {
      var i := Ended();
      while i < ended
        invariant Valid() && |calls| == |old(calls)| && i == over <= ended && |history| <= |marks|
        decreases ended - i
      {
        Advance(true);
        i := i + 1;
      }
      if running && calls[ended].Waiting? {
        Advance(false);
      }
      assert |history| == |marks|;
    }

    /** How many calls are over. */
    method Ended() returns (n: nat)
      requires Valid()
      ensures n == over
    {
      n := 0;
      while n < |calls| && calls[n].Over?
        invariant n <= over
      {
        n := n + 1;
      }
    }

    /** Any order of callbacks: operations begin and end one after the other, in the order they were asked for. */
    method Run(events: seq<Event>)
      requires Valid()
      modifies this
      ensures Valid() && S.Serial(history) && old(history) <= history
    {
      var k := 0;
      while k < |events|
        invariant k <= |events| && Valid() && old(history) <= history
      {
        match events[k] {
          case Asking =>
            var id := Serialize();
          case Starting(i) =>
            if MayStart(i) {
              Start(i);
            }
          case Settling(i, ok) =>
            if i < |calls| && calls[i].Running? {
              Settle(i, ok);
            }
          case Draining(i) =>
            if MayDrain(i) {
              Drain(i);
            }
        }
        k := k + 1;
      }
    }
  }

  /** The scheduler and the chain have been asked for the same operations, and the same ones began and ended. */
  ghost predicate Together(w: S.Workspace, o: Operations)
    reads w, o
  {
    w.Valid() && o.Valid() && w.history == o.history && w.nextId == |o.calls|
  }

  /**
    Then the queue of the scheduler is what is not over in the chain, in order; its head runs if that does;
    and a callback of the chain may run exactly at the head, when the scheduler may begin it too, if the
    tail before it has settled.
  */
  lemma QueueIsTheChain(w: S.Workspace, o: Operations)
    requires Together(w, o)
    ensures o.over + |w.queue| == |o.calls|
    ensures forall i: nat | i < |w.queue| :: w.queue[i].id == o.over + i && !o.calls[o.over + i].Over?
    ensures |w.queue| > 0 ==> (w.phase.Waiting? <==> o.calls[o.over].Waiting?)
    ensures forall i: nat :: o.MayStart(i) <==>
      |w.queue| > 0 && w.phase.Waiting? && i == w.queue[0].id && (i == 0 || !o.MayDrain(i - 1))
  {
    forall i: nat | o.MayStart(i)
      ensures |w.queue| > 0 && w.phase.Waiting? && i == w.queue[0].id && (i == 0 || !o.MayDrain(i - 1))
    {
      o.OnlyTheHeadMayStart(i);
    }
  }

  /** Whatever the scheduler does in one step, callbacks that may run let the chain do the same. */
  method Follow(w: S.Workspace, o: Operations, e: S.Event)
    requires Together(w, o)
    modifies w, o
    ensures Together(w, o) && old(w.history) <= w.history
  {
    w.Step(e);
    while |o.calls| < w.nextId
      invariant w.Valid() && o.Valid() && |o.calls| <= w.nextId && o.history == old(w.history) <= w.history
      modifies o
    {
      var id := o.Serialize();
    }
    o.CatchUp(w.nextId - |w.queue|, !w.phase.Waiting?, w.history);
  }

  /** So the scheduler begins nothing, in any run, that the promises would not let begin. */
  method FollowRun(w: S.Workspace, o: Operations, events: seq<S.Event>)
    requires Together(w, o)
    modifies w, o
    ensures Together(w, o) && old(w.history) <= w.history
  {
    for k := 0 to |events|
      invariant Together(w, o) && old(w.history) <= w.history
    {
      Follow(w, o, events[k]);
    }
  }
}
