/** The router handler that serves memory messages from the long-term tier
    of the two-tier memory manager. The JSON round trip that turns the
    message payload into a `{key, value}` record is modelled by
    `DecodePayload` on `Value`s. */
module MemoryMessages {
  import opened Common
  import TwoTierMemory
  import Routing

  const MemoryStore: string := "memory_store"
  const MemoryGet: string := "memory_get"
  const MemoryDelete: string := "memory_delete"

  const Priority: int := 150

  datatype Payload = Payload(key: string, value: Value)

  datatype MemoryError =
    | DecodeFailed(field: string)
    | StoreFailed(reason: string)
    | KeyNotFound(key: string)
    | Unsupported(msgType: string)

  /** Decoding into the record: JSON null leaves the zero record; an object
      supplies `key` (a string, or null for "") and `value` (anything, absent
      meaning nil); any other shape is rejected. An empty `field` means the
      payload as a whole. */
  function DecodePayload(v: Value): (r: Decoded<Payload>)
    ensures r.Decoded? <==>
      v.Null? || (v.Object? && ("key" in v.fields ==> v.fields["key"].Null? || v.fields["key"].Str?))
    ensures v.Null? ==> r == Decoded(Payload("", Null))
    ensures r.Decoded? && v.Object? ==>
      && ("key" in v.fields && v.fields["key"].Str? ==> r.value.key == v.fields["key"].s)
      && ("key" !in v.fields || v.fields["key"].Null? ==> r.value.key == "")
      && (r.value.value == if "value" in v.fields then v.fields["value"] else Null)
  {
    match v
    case Null => Decoded(Payload("", Null))
    case Object(f) =>
      if "key" in f && !(f["key"].Null? || f["key"].Str?) then Malformed("key")
      else
        var key := if "key" in f && f["key"].Str? then f["key"].s else "";
        Decoded(Payload(key, if "value" in f then f["value"] else Null))
    case _ => Malformed("")
  }

  /** What a sender marshals: `value` is omitted when nil. */
  function EncodePayload(p: Payload): Value
  {
    if p.value == Null then Object(map["key" := Str(p.key)])
    else Object(map["key" := Str(p.key), "value" := p.value])
  }

  /** Every record survives the JSON round trip. */
  lemma DecodeEncode(p: Payload)
    ensures DecodePayload(EncodePayload(p)) == Decoded(p)
  {
    var fields := EncodePayload(p).fields;
    assert fields["key"] == Str(p.key);
    assert "value" !in fields ==> p.value == Null;
  }

  /** The handler as the router sees it. */
  const AsRouted: Routing.Handler := Routing.Handler("memory", OnlyTypes({MemoryStore, MemoryGet, MemoryDelete}), Priority)

  /** The three memory types; the router record `AsRouted` answers the same. */
  predicate CanHandle(msgType: string)
    ensures CanHandle(msgType) <==> Routing.CanHandle(AsRouted, msgType)
    ensures CanHandle(msgType) ==> msgType !in Routing.RoutableTypes
  {
    msgType in {MemoryStore, MemoryGet, MemoryDelete}
  }

  /** The three memory types are none of the five types router registration
      looks at, so registering this handler leaves every handler list as it
      was and `Route` never reaches it. */
  method NeverRouted(router: Routing.MessageRouter)
    requires router.Valid()
    modifies router
    ensures router.handlers == old(router.handlers)
  {
    router.RegisterHandler(AsRouted);
    forall t | t in Routing.RoutableTypes ensures !Routing.CanHandle(AsRouted, t) {
      assert !CanHandle(t);
    }
    assert router.handlers.Keys == old(router.handlers).Keys;
  }

  class MemoryMessageHandler {
    const memory: TwoTierMemory.MemoryManager

    constructor (memory: TwoTierMemory.MemoryManager)
      ensures this.memory == memory
    {
      this.memory := memory;
    }

    /** `memory_get`: succeeds exactly when the key is in long-term memory. */
    function HandleGet(key: string): (err: Option<MemoryError>)
      reads memory
      ensures err.None? <==> memory.GetLongTermMemory(key).Some?
      ensures err.Some? ==> err.value == KeyNotFound(key)
    {
      if key in memory.longTerm then None else Some(KeyNotFound(key))
    }

    /** Decodes first, whatever the type; then dispatches on the type. Only
        `memory_store` changes memory, and only its key. */
    method Handle(msg: Routing.Message, now: int, writeFailure: Option<string>) returns (err: Option<MemoryError>)
      modifies memory`longTerm
      ensures DecodePayload(msg.payload).Malformed? ==>
        err == Some(DecodeFailed(DecodePayload(msg.payload).field)) && memory.longTerm == old(memory.longTerm)
      ensures DecodePayload(msg.payload).Decoded? ==>
        var p := DecodePayload(msg.payload).value;
        && (msg.msgType == MemoryStore ==>
              && memory.longTerm == old(memory.longTerm)[p.key := TwoTierMemory.Entry(p.key, p.value, now, None)]
              && err == (if writeFailure.Some? then Some(StoreFailed(writeFailure.value)) else None)
              && HandleGet(p.key) == None)
        && (msg.msgType == MemoryGet ==> memory.longTerm == old(memory.longTerm) && err == HandleGet(p.key))
        && (msg.msgType == MemoryDelete ==> memory.longTerm == old(memory.longTerm) && err == None)
        && (!CanHandle(msg.msgType) ==> memory.longTerm == old(memory.longTerm) && err == Some(Unsupported(msg.msgType)))
    {
      var decoded := DecodePayload(msg.payload);
      if decoded.Malformed? {
        return Some(DecodeFailed(decoded.field));
      }
      var p := decoded.value;
      if msg.msgType == MemoryStore {
        var failure := memory.SetLongTermMemory(p.key, p.value, now, writeFailure);
        err := if failure.Some? then Some(StoreFailed(failure.value)) else None;
      } else if msg.msgType == MemoryGet {
        err := HandleGet(p.key);
      } else if msg.msgType == MemoryDelete {
        err := None;
      } else {
        err := Some(Unsupported(msg.msgType));
      }
    }
  }
}
