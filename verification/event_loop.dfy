/** The event loop: a running flag, a bounded FIFO of pending events and an
    append-only list of handlers. The dispatch goroutine is modelled by
    `ProcessNext`, one turn of its loop; what a handler's `Handle` returns
    for an event is the parameter `run` (None for a nil error). */
module Events {
  import opened Common

  const DefaultMaxQueue: int := 1000

  const MessageEvent := "message"
  const ToolCallEvent := "tool_call"
  const SystemEvent := "system"
  const HeartbeatEvent := "heartbeat"
  const CronEvent := "cron"

  datatype Event = Event(id: string, eventType: string, timestamp: int, data: Value, metadata: map<string, Value>)

  datatype EventHandler = EventHandler(name: string, accepts: Accepts)

  datatype EmitError = NotRunning | QueueFull

  predicate CanHandle(h: EventHandler, t: string)
  {
    Admits(h.accepts, t)
  }

  /** The handlers of `hs` that accept type `t`, in list order. */
  function Matching(hs: seq<EventHandler>, t: string): (r: seq<EventHandler>)
    ensures |r| <= |hs|
    ensures forall h :: h in r <==> h in hs && CanHandle(h, t)
  {
    if hs == [] then []
    else
      var init := Matching(hs[..|hs| - 1], t);
      assert hs == hs[..|hs| - 1] + [hs[|hs| - 1]];
      if CanHandle(hs[|hs| - 1], t) then init + [hs[|hs| - 1]] else init
  }

  /** Registration order survives filtering: handlers kept from a prefix come first. */
  lemma {:induction false} MatchingPrefix(hs: seq<EventHandler>, more: seq<EventHandler>, t: string)
    ensures Matching(hs + more, t) == Matching(hs, t) + Matching(more, t)
    decreases |more|
  {
    if more == [] {
      assert hs + more == hs;
    } else {
      var last := more[|more| - 1];
      var front := more[..|more| - 1];
      assert (hs + more)[..|hs + more| - 1] == hs + front;
      MatchingPrefix(hs, front, t);
    }
  }

  /** Filtering one more handler of the list extends the filtered prefix by it when it accepts `t`. */
  lemma MatchingStep(hs: seq<EventHandler>, i: int, t: string)
    requires 0 <= i < |hs|
    ensures Matching(hs[..i + 1], t)
      == if CanHandle(hs[i], t) then Matching(hs[..i], t) + [hs[i]] else Matching(hs[..i], t)
  {
    assert hs[..i + 1][..i] == hs[..i];
  }

  /** Some handler of `hs` succeeded on `e`. */
  ghost predicate AnySucceeded(hs: seq<EventHandler>, e: Event, run: (EventHandler, Event) -> Option<string>)
  {
    exists k :: 0 <= k < |hs| && run(hs[k], e) == None
  }

  lemma SucceededSnoc(hs: seq<EventHandler>, h: EventHandler, e: Event, run: (EventHandler, Event) -> Option<string>)
    ensures AnySucceeded(hs + [h], e, run) <==> AnySucceeded(hs, e, run) || run(h, e) == None
  {
    var r := hs + [h];
    if AnySucceeded(hs, e, run) {
      var k :| 0 <= k < |hs| && run(hs[k], e) == None;
      assert r[k] == hs[k];
    }
    if run(h, e) == None {
      assert r[|hs|] == h;
    }
    if AnySucceeded(r, e, run) {
      var k :| 0 <= k < |r| && run(r[k], e) == None;
      if k < |hs| {
        assert r[k] == hs[k];
      }
    }
  }

  class EventLoop {
    var running: bool
    var queue: seq<Event>
    var handlers: seq<EventHandler>
    const maxQueue: int

    ghost predicate Valid()
      reads this
    {
      maxQueue > 0 && |queue| <= maxQueue
    }

    /** `NewEventLoop`: a non-positive size means the default 1000. */
    constructor (maxQueueSize: int)
      ensures Valid()
      ensures maxQueue == (if maxQueueSize <= 0 then DefaultMaxQueue else maxQueueSize)
      ensures !running && queue == [] && handlers == []
    {
      maxQueue := if maxQueueSize <= 0 then DefaultMaxQueue else maxQueueSize;
      running := false;
      queue := [];
      handlers := [];
    }

    method RegisterHandler(h: EventHandler)
      requires Valid()
      modifies this`handlers
      ensures Valid()
      ensures handlers == old(handlers) + [h]
    {
      handlers := handlers + [h];
    }

    /** Idempotent: a running loop is left as it is. */
    method Start()
      requires Valid()
      modifies this`running
      ensures Valid()
      ensures running
      ensures queue == old(queue) && handlers == old(handlers)
    {
      if running {
        return;
      }
      running := true;
    }

    /** Idempotent: a stopped loop is left as it is. */
    method Stop()
      requires Valid()
      modifies this`running
      ensures Valid()
      ensures !running
      ensures queue == old(queue) && handlers == old(handlers)
    {
      if !running {
        return;
      }
      running := false;
    }

    /** Non-blocking enqueue at the tail. */
    method Emit(e: Event) returns (err: Option<EmitError>)
      requires Valid()
      modifies this`queue
      ensures Valid()
      ensures !running ==> err == Some(NotRunning) && queue == old(queue)
      ensures running && |old(queue)| >= maxQueue ==> err == Some(QueueFull) && queue == old(queue)
      ensures running && |old(queue)| < maxQueue ==> err == None && queue == old(queue) + [e]
    {
      if !running {
        return Some(NotRunning);
      }
      if |queue| < maxQueue {
        queue := queue + [e];
        return None;
      }
      return Some(QueueFull);
    }

    /** Dispatches one event over a snapshot of the handler list: every
        accepting handler runs, in registration order, whatever the others
        return; `handled` says whether any of them succeeded. Never fails. */
    method HandleEvent(e: Event, run: (EventHandler, Event) -> Option<string>)
      returns (err: Option<string>, invoked: seq<EventHandler>, handled: bool)
      ensures err == None
      ensures invoked == Matching(handlers, e.eventType)
      ensures handled <==> exists i :: 0 <= i < |invoked| && run(invoked[i], e) == None
    {
      var snapshot := handlers;
      invoked := [];
      handled := false;
      for i := 0 to |snapshot|
        invariant invoked == Matching(snapshot[..i], e.eventType)
        invariant handled <==> AnySucceeded(invoked, e, run)
      {
        var h := snapshot[i];
        MatchingStep(snapshot, i, e.eventType);
        if CanHandle(h, e.eventType) {
          SucceededSnoc(invoked, h, e, run);
          invoked := invoked + [h];
          if run(h, e) == None {
            handled := true;
          }
        }
      }
      assert snapshot[..|snapshot|] == snapshot;
      err := None;
    }

    /** One turn of the dispatch loop: the oldest pending event is taken off
        the queue and dispatched. A stopped loop has no consumer. */
    method ProcessNext(run: (EventHandler, Event) -> Option<string>)
      returns (taken: Option<Event>, invoked: seq<EventHandler>)
      requires Valid()
      modifies this`queue
      ensures Valid()
      ensures !running || old(queue) == [] ==> taken == None && queue == old(queue) && invoked == []
      ensures running && old(queue) != [] ==>
        taken == Some(old(queue)[0]) && queue == old(queue)[1..]
        && invoked == Matching(handlers, old(queue)[0].eventType)
    {
      if !running || queue == [] {
        return None, [];
      }
      var e := queue[0];
      queue := queue[1..];
      var _, inv, _ := HandleEvent(e, run);
      return Some(e), inv;
    }

    function GetQueueLength(): (n: nat)
      reads this
      ensures Valid() ==> n <= maxQueue
    {
      |queue|
    }

    /** The flag `Start` sets and `Stop` clears; while it is false `Emit`
        refuses and `ProcessNext` does nothing. */
    function IsRunning(): (r: bool)
      reads this
      ensures r <==> running
    {
      running
    }
  }
}
