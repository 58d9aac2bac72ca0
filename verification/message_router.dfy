/** The priority-ordered message router and the closable message queue. A
    handler is a record of its name, the types its `CanHandle` accepts and its
    priority (lower runs first); what its `Handle` returns for a message is the
    parameter `run` (None for a nil error). */
module Routing {
  import opened Common

  const UserInput: string := "user_input"
  const SystemEvent: string := "system_event"
  const ToolResponse: string := "tool_response"
  const AgentMessage: string := "agent_message"
  const ExternalEvent: string := "external_event"

  /** The only types registration looks at, in the order it looks at them. */
  const RoutableTypes: seq<string> := [UserInput, SystemEvent, ToolResponse, AgentMessage, ExternalEvent]

  datatype Message = Message(
    id: string,
    msgType: string,
    source: string,
    target: string,
    payload: Value,
    timestamp: int,
    metadata: map<string, Value>)

  datatype Handler = Handler(name: string, accepts: Accepts, priority: int)

  predicate CanHandle(h: Handler, t: string)
  {
    Admits(h.accepts, t)
  }

  /** The two ready-made handlers: echo (priority 50) and test (priority 100), both for every type. */
  const Echo: Handler := Handler("echo", AnyType, 50)
  const Test: Handler := Handler("test", AnyType, 100)

  datatype RouteError = NoHandlers(msgType: string) | HandlerFailed(message: string)

  ghost predicate SortedByPriority(s: seq<Handler>)
  {
    forall i, j :: 0 <= i < j < |s| ==> s[i].priority <= s[j].priority
  }

  /** Where the backward swap loop leaves a handler of priority `p` appended
      to `s`: it moves left past the trailing run of strictly larger priorities. */
  function InsertPos(s: seq<Handler>, p: int): (k: nat)
    ensures k <= |s|
    ensures forall i :: k <= i < |s| ==> p < s[i].priority
    ensures k > 0 ==> s[k - 1].priority <= p
  {
    if s == [] then 0
    else if p < s[|s| - 1].priority then InsertPos(s[..|s| - 1], p)
    else |s|
  }

  /** `h` appended to `s`, then moved to its insertion position. */
  function Inserted(s: seq<Handler>, h: Handler): seq<Handler>
  {
    var k := InsertPos(s, h.priority);
    s[..k] + [h] + s[k..]
  }

  /** The insertion keeps a sorted list sorted. */
  lemma InsertedSorted(s: seq<Handler>, h: Handler)
    requires SortedByPriority(s)
    ensures SortedByPriority(Inserted(s, h))
  {
    var k := InsertPos(s, h.priority);
    var r := Inserted(s, h);
    assert forall i :: 0 <= i < k ==> r[i] == s[i];
    assert r[k] == h;
    assert forall i :: k < i < |r| ==> r[i] == s[i - 1];
    forall i, j | 0 <= i < j < |r| ensures r[i].priority <= r[j].priority {
      if i < k && j == k {
        assert s[i].priority <= s[k - 1].priority;
      }
    }
  }

  /** The old handlers keep their relative order around the inserted one. */
  lemma InsertedKeepsOrder(s: seq<Handler>, h: Handler)
    ensures var k := InsertPos(s, h.priority);
      Inserted(s, h)[k] == h && Inserted(s, h)[..k] + Inserted(s, h)[k + 1..] == s
  {
    var k := InsertPos(s, h.priority);
    var r := Inserted(s, h);
    assert r[..k] == s[..k];
    assert r[k + 1..] == s[k..];
  }

  /** Stability: in a sorted list, exactly the handlers whose priority is not
      larger than the new one's stay in front of it. */
  lemma InsertedStable(s: seq<Handler>, h: Handler)
    requires SortedByPriority(s)
    ensures forall i :: 0 <= i < |s| ==> (s[i].priority <= h.priority <==> i < InsertPos(s, h.priority))
  {
    var k := InsertPos(s, h.priority);
    forall i | 0 <= i < |s| ensures s[i].priority <= h.priority <==> i < k {
      if i < k {
        assert s[i].priority <= s[k - 1].priority;
      }
    }
  }

  /** The new list is the old list plus `h`, rearranged. */
  lemma InsertedPermutation(s: seq<Handler>, h: Handler)
    ensures multiset(Inserted(s, h)) == multiset(s + [h])
    ensures |Inserted(s, h)| == |s| + 1
  {
    var k := InsertPos(s, h.priority);
    assert s == s[..k] + s[k..];
  }

  /** The list stored for `t`; Go appends to a nil slice when there is none. */
  function ListFor(m: map<string, seq<Handler>>, t: string): seq<Handler>
  {
    if t in m then m[t] else []
  }

  class MessageRouter {
    var handlers: map<string, seq<Handler>>

    /** Only the five routable types have lists; each is non-empty and in
        non-decreasing priority order. */
    ghost predicate Valid()
      reads this
    {
      forall t :: t in handlers ==> t in RoutableTypes && handlers[t] != [] && SortedByPriority(handlers[t])
    }

    constructor ()
      ensures Valid() && handlers == map[]
    {
      handlers := map[];
    }

    method RegisterHandler(h: Handler)
      requires Valid()
      modifies this
      ensures Valid()
      ensures forall t :: t in RoutableTypes && CanHandle(h, t) ==>
        t in handlers && handlers[t] == Inserted(ListFor(old(handlers), t), h)
      ensures forall t :: !(t in RoutableTypes && CanHandle(h, t)) ==>
        (t in handlers <==> t in old(handlers)) && (t in handlers ==> handlers[t] == old(handlers)[t])
    {
      var n := 0;
      while n < |RoutableTypes|
        invariant 0 <= n <= |RoutableTypes|
        invariant Valid()
        invariant forall t :: t in RoutableTypes[..n] && CanHandle(h, t) ==>
          t in handlers && handlers[t] == Inserted(ListFor(old(handlers), t), h)
        invariant forall t :: !(t in RoutableTypes[..n] && CanHandle(h, t)) ==>
          (t in handlers <==> t in old(handlers)) && (t in handlers ==> handlers[t] == old(handlers)[t])
      {
        var t := RoutableTypes[n];
        assert t !in RoutableTypes[..n];
        if CanHandle(h, t) {
          var list := AppendByPriority(ListFor(handlers, t), h);
          InsertedSorted(ListFor(handlers, t), h);
          handlers := handlers[t := list];
        }
        assert RoutableTypes[..n + 1] == RoutableTypes[..n] + [t];
        n := n + 1;
      }
    }

    /** Appends `h` and swaps it backwards while it has a strictly smaller
        priority than its left neighbour. */
    static method AppendByPriority(prior: seq<Handler>, h: Handler) returns (list: seq<Handler>)
      ensures list == Inserted(prior, h)
    {
      list := prior + [h];
      var i := |list| - 1;
      while i > 0
        invariant 0 <= i <= |prior|
        invariant list == prior[..i] + [h] + prior[i..]
        invariant forall k :: i <= k < |prior| ==> h.priority < prior[k].priority
      {
        if list[i].priority < list[i - 1].priority {
          list := list[i - 1 := list[i]][i := list[i - 1]];
          assert list == prior[..i - 1] + [h] + prior[i - 1..];
          i := i - 1;
        } else {
          break;
        }
      }
      assert i == InsertPos(prior, h.priority);
    }

    /** Runs every handler of the message's type in order, whatever earlier
        ones returned, and reports the first failure. */
    method Route(msg: Message, run: (Handler, Message) -> Option<string>)
      returns (err: Option<RouteError>, invoked: seq<Handler>)
      ensures msg.msgType !in handlers ==> err == Some(NoHandlers(msg.msgType)) && invoked == []
      ensures msg.msgType in handlers ==> invoked == handlers[msg.msgType]
      ensures msg.msgType in handlers ==>
        (err == None <==> forall i :: 0 <= i < |invoked| ==> run(invoked[i], msg) == None)
      ensures msg.msgType in handlers && err != None ==>
        exists i :: 0 <= i < |invoked| && run(invoked[i], msg).Some?
          && err == Some(HandlerFailed(run(invoked[i], msg).value))
          && forall j :: 0 <= j < i ==> run(invoked[j], msg) == None
    {
      if msg.msgType !in handlers {
        return Some(NoHandlers(msg.msgType)), [];
      }
      var list := handlers[msg.msgType];
      err := None;
      invoked := [];
      ghost var first := 0;
      for i := 0 to |list|
        invariant invoked == list[..i]
        invariant err == None <==> forall j :: 0 <= j < i ==> run(list[j], msg) == None
        invariant err != None ==>
          && 0 <= first < i && run(list[first], msg).Some?
          && err == Some(HandlerFailed(run(list[first], msg).value))
          && forall j :: 0 <= j < first ==> run(list[j], msg) == None
      {
        var outcome := run(list[i], msg);
        invoked := invoked + [list[i]];
        if outcome.Some? && err == None {
          err := Some(HandlerFailed(outcome.value));
          first := i;
        }
      }
      assert list[..|list|] == list;
    }

    /** A copy of the list for `t`, or nil when nothing is registered for it. */
    function GetHandlers(t: string): (r: Option<seq<Handler>>)
      reads this
      ensures r == None <==> t !in handlers
      ensures r != None ==> r.value == handlers[t]
      ensures Valid() && r != None ==> r.value != [] && SortedByPriority(r.value) && t in RoutableTypes
    {
      if t in handlers then Some(handlers[t]) else None
    }
  }

  datatype EnqueueOutcome = Enqueued | QueueClosed | WouldBlock

  /** The buffered message queue, reduced to its closed flag and contents. */
  class MessageQueue {
    var buffered: seq<Message>
    var closed: bool
    const bufferSize: nat

    constructor (bufferSize: nat)
      ensures buffered == [] && !closed && this.bufferSize == bufferSize
    {
      buffered := [];
      closed := false;
      this.bufferSize := bufferSize;
    }

    /** A closed queue refuses; otherwise the message goes to the tail when
        there is room (a full buffer would make the caller wait). */
    method Enqueue(msg: Message) returns (r: EnqueueOutcome)
      modifies this`buffered
      ensures old(closed) ==> r == QueueClosed && buffered == old(buffered)
      ensures !old(closed) && |old(buffered)| < bufferSize ==> r == Enqueued && buffered == old(buffered) + [msg]
      ensures !old(closed) && |old(buffered)| >= bufferSize ==> r == WouldBlock && buffered == old(buffered)
    {
      if closed {
        return QueueClosed;
      }
      if |buffered| < bufferSize {
        buffered := buffered + [msg];
        return Enqueued;
      }
      return WouldBlock;
    }

    /** Idempotent: the queue ends closed and reports size 0 whatever it was before. */
    method Close()
      modifies this`closed
      ensures closed && IsClosed() && Size() == 0
    {
      if !closed {
        closed := true;
      }
    }

    /** A closed queue also reports size 0. */
    function IsClosed(): (r: bool)
      reads this
      ensures r <==> closed
      ensures r ==> Size() == 0
    {
      closed
    }

    function Size(): (n: nat)
      reads this
      ensures closed ==> n == 0
      ensures !closed ==> n == |buffered|
    {
      if closed then 0 else |buffered|
    }
  }

  /** Echo (50) registered after Test (100) still runs first on every routable type. */
  lemma EchoBeforeTest()
    ensures Inserted(Inserted([], Test), Echo) == [Echo, Test]
  {
    assert InsertPos([Test], Echo.priority) == 0;
  }
}
