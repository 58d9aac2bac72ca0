# Agent runtime core, modelled in Dafny

This project models the sequential core of a small Go agent runtime:

- the **two-tier memory manager** (`test/memory.go`): a short-term map that
  is capped at a capacity, whose entries may carry a time-to-live and which
  evicts its oldest entry on overflow, beside a long-term map with no expiry;
- the **file-indexed memory store** (`core/memory.go`): entries with an ID,
  a type, content and an optional deadline, kept in one index map, with
  type/expiry/substring search, newest-first ordering by an in-place bubble
  sort, and a cleanup sweep;
- the **message router** and the closed flag of the **message queue**
  (`core/message_handler.go`): per-type handler lists kept in priority order
  by a stable insertion step, and routing that runs every handler and
  reports the first failure;
- the **event loop** (`core/event_loop.go`): a running flag, a bounded FIFO
  of events and an append-only handler list, with dispatch to every
  matching handler in registration order;
- the **tool registry** (`core/tool_manager.go`; `core/tools.go` defines a
  second registry, `ToolRegistry`, with the same types and the same logic,
  and both are modelled by the one class `Tools.ToolManager`);
- the glue on top: the **memory message handler**, the **tool-call message
  handler** and the **memory configuration conversion**.

Every module corresponds to one source file; `Common`, `Text` and `MapScan`
hold what several of them share (an option type, a JSON-shaped `Value` for
Go's `interface{}`, ASCII case folding with substring search, and the Go
loop that collects the matching values of a map). Objects whose fields the
source updates (`MemoryManager`, `FileMemoryStore`, `MessageRouter`,
`MessageQueue`, `EventLoop`, `ToolManager`) are classes whose methods
state their new state; the pure parts are functions with lemmas about them.

Conventions:

- Times are integer nanoseconds. Clock readings are parameters (`now`,
  and `clock` for the second reading that the eviction scan takes); a scan
  that reads the clock once per entry is modelled with one reading for the
  whole scan (see "Left out"). Go's zero `time.Time` is 0.
- Go iterates a map in an unspecified order. The loops over maps pick
  their next key with `:|`, so each contract holds for every visiting
  order.
- A handler's `Handle` outcome is the parameter `run` (`None` is a nil
  error). A tool's handler is the parameter `invoke`. `%v` rendering of a
  value is the parameter `render`.
- Outcomes of file writes that cannot be computed (`writeFailure`), a
  freshly generated ID (`freshId`) and the index found on disk are
  parameters too.
- JSON payload decoding is modelled as decoding a `Value` into the target
  record, following Go's rules for the shape of the record: null gives the
  zero record, a field of the wrong shape is an error, and unknown fields
  are ignored. Numbers are integers in the model (see "Left out").

## Model

| member | source | states |
|---|---|---|
| TwoTierMemory.Expired | test/memory.go:101-103 | an entry expires only when it has a TTL and more than TTL nanoseconds have passed since its timestamp; entries without a TTL never expire |
| TwoTierMemory.ShortTermEntry | test/memory.go:71-79 | the stored entry has the given key, value and timestamp `now`, and carries a TTL exactly when `ttl > 0` |
| TwoTierMemory.EvictionOutcome | test/memory.go:183-196 | an eviction scan either removes exactly one entry and leaves every other entry as it was, or changes nothing because no entry predates the scan's clock or the oldest one found has the key `""` |
| TwoTierMemory.StoreThenEvict | test/memory.go:81-86 | a write into a store within capacity followed by an eviction scan leaves the store within capacity, unless the scan changed nothing because no entry predates its clock or the oldest key is `""` |
| TwoTierMemory.InsertByTime | test/memory.go:309-311 | inserting into a newest-first list keeps it newest first and adds exactly that entry |
| TwoTierMemory.SortNewestFirst | test/memory.go:309-311 | the result is ordered by non-increasing timestamp and is a permutation of the input |
| TwoTierMemory.SortKeepsMembers | test/memory.go:309-311 | sorting the hits keeps exactly the same entries |
| TwoTierMemory.EntryMatchesQuery | test/memory.go:317-330 | true exactly when the lower-cased key or the lower-cased rendered value contains the query as a substring |
| TwoTierMemory.MemoryManager.constructor | test/memory.go:42-64 | a missing configuration becomes capacity 1000, file `memory/long_term.json` and a five-minute interval; short-term memory starts empty and long-term memory holds what the file held, or nothing when it could not be read |
| TwoTierMemory.MemoryManager.SetShortTermMemory | test/memory.go:67-89 | stores or overwrites the key with timestamp `now` and a TTL only when `ttl > 0`; runs one eviction scan only when the size exceeds the capacity; a store within capacity before stays within capacity, except when the scan finds nothing to evict or the oldest key is `""` |
| TwoTierMemory.MemoryManager.GetShortTermMemory | test/memory.go:92-115 | an absent key is not found; an expired entry is deleted and reported not found; otherwise the value is returned and the map is unchanged |
| TwoTierMemory.MemoryManager.SetLongTermMemory | test/memory.go:118-132 | the key maps to a TTL-less entry with the value and timestamp `now`, a following `GetLongTermMemory` of the key returns the value, and the file write's outcome is the result |
| TwoTierMemory.MemoryManager.GetLongTermMemory | test/memory.go:135-145 | found exactly when the key is present, with its stored value; no expiry applies |
| TwoTierMemory.MemoryManager.GetAllShortTermMemory | test/memory.go:148-162 | one element per unexpired short-term entry, each one the entry stored under its key, and every unexpired entry appears |
| TwoTierMemory.MemoryManager.GetAllLongTermMemory | test/memory.go:165-175 | one element per long-term entry, every long-term entry appears, and each entry appears exactly as often as keys hold it |
| TwoTierMemory.MemoryManager.EvictOldestShortTerm | test/memory.go:178-197 | the new short-term map is one eviction step from the old one: the oldest entry strictly before the clock is deleted unless its key is `""` |
| TwoTierMemory.MemoryManager.CleanupExpiredEntries | test/memory.go:262-279 | exactly the expired short-term entries are deleted; unexpired entries and the whole long-term map are unchanged |
| TwoTierMemory.MemoryManager.SearchMemory | test/memory.go:282-314 | the result is newest first, holds exactly the unexpired matching short-term entries and, when asked, the matching long-term entries, has one element per matching key, and holds each entry exactly as often as matching keys of the two maps hold it |
| TwoTierMemory.MemoryManager.GetMemoryStats | test/memory.go:333-352 | the short-term count is the number of unexpired entries, so at most the map size; the long-term count is the map size; the capacity is the configured one |
| FileMemory.ExpiredAt | core/memory.go:131 | only short-term entries with a deadline expire, and only strictly after that deadline |
| FileMemory.ContainsIgnoreCase | core/memory.go:284-288 | true exactly when the lower-cased query occurs in the lower-cased text; the empty query always matches |
| FileMemory.Keep | core/memory.go:151-163 | an entry passes the search filter exactly when its type matches (an empty type matches all), it is not an expired short-term entry, and the lower-cased query occurs in its lower-cased content (the empty query always does) |
| FileMemory.Limited | core/memory.go:170-172 | the result length never exceeds the hit count, never exceeds a positive limit, is shorter than the hit count only when it equals the limit, and is the whole hit count when the limit is not positive or not exceeded |
| FileMemory.BubblePass | core/memory.go:293-304 | one inner pass permutes the prefix, moves a largest sort key of the prefix to its last slot and leaves the suffix alone |
| FileMemory.BubbleStep | core/memory.go:294-303 | one compare-and-swap step carries the largest sort key seen so far one slot right and keeps every slot before the sorted suffix no larger than the suffix |
| FileMemory.PassExtends | core/memory.go:292-305 | after each pass of the outer loop the sorted suffix is one slot longer and everything before it is no larger |
| FileMemory.SortMemoryEntriesByTime | core/memory.go:290-307 | the array ends up a permutation of its old contents, newest first when `reverse` and oldest first otherwise |
| FileMemory.FileMemoryStore.constructor | core/memory.go:54-74 | the store starts with the index found on disk, or an empty one |
| FileMemory.FileMemoryStore.Add | core/memory.go:77-113 | an empty ID becomes the fresh ID and a zero timestamp becomes `now`; the entry is stored under its ID, overwriting any entry with that ID, and no other ID changes |
| FileMemory.FileMemoryStore.Get | core/memory.go:116-136 | a missing ID is a not-found error; an expired short-term entry is an expired error and is not removed; otherwise the stored entry is returned |
| FileMemory.SortedHitsAreCut | core/memory.go:166-172 | a newest-first permutation of every kept entry, cut to the limit when the limit is positive and exceeded, holds only kept entries and none more often than the index holds it, has the limited length, holds every kept entry exactly as often as the index when not cut, and every entry it holds fewer times than the index (counting repeats) is no newer than anything it holds |
| FileMemory.FileMemoryStore.Search | core/memory.go:139-175 | the result is newest first, holds only entries passing the type, expiry and substring filters and none more often than the index holds it; when `limit` is not positive or not exceeded it holds every passing entry exactly as often as the index does, otherwise it is cut to `limit` and every passing entry dropped, counting repeats, is no newer than a returned one |
| FileMemory.FileMemoryStore.Delete | core/memory.go:178-205 | a missing ID is a not-found error with the index unchanged; otherwise exactly that ID is removed |
| FileMemory.FileMemoryStore.ListByType | core/memory.go:208-210 | the result is a search result for the empty query: every entry has the type (or any type for an empty filter) and is unexpired, each at most as often as the index holds it, all of them when not cut, and what a cut drops is no newer than what it keeps |
| FileMemory.ExpiredIdsRemoved | core/memory.go:225-242 | deleting exactly the collected expired IDs from the index leaves every other entry with its value |
| FileMemory.FileMemoryStore.CleanupExpired | core/memory.go:213-250 | the new index keeps exactly the entries that are not expired short-term entries, with their values unchanged; long-term and episodic entries stay even with a past deadline |
| Routing.InsertPos | core/message_handler.go:67-74 | the backward swap loop stops at a position after which every handler has a strictly larger priority and before which the neighbour's priority is not larger |
| Routing.InsertedSorted | core/message_handler.go:65-74 | a list sorted by non-decreasing priority is still sorted after registration |
| Routing.InsertedKeepsOrder | core/message_handler.go:65-74 | removing the new handler from the new list gives back the old list in its old order |
| Routing.InsertedStable | core/message_handler.go:67-74 | in a sorted list, exactly the handlers with priority not larger than the new one's stay in front of it, so it lands after all equal priorities |
| Routing.InsertedPermutation | core/message_handler.go:65-74 | the new list is a permutation of the old list plus the new handler |
| Routing.EchoBeforeTest | core/echo_handler.go:23-25 | the echo handler (priority 50) registered after the test handler (priority 100) still comes first |
| Routing.MessageRouter.constructor | core/message_handler.go:46-50 | a new router has no handler lists |
| Routing.MessageRouter.RegisterHandler | core/message_handler.go:53-77 | for each of the five message types the handler accepts, its list becomes the old list with the handler inserted stably by priority; lists for every other type, and the absence of lists for types outside the five, are unchanged; every list stays sorted |
| Routing.MessageRouter.AppendByPriority | core/message_handler.go:65-74 | appending and swapping backwards while strictly smaller yields exactly the stable insertion |
| Routing.MessageRouter.Route | core/message_handler.go:80-100 | a type with no list is an error and runs nothing; otherwise every handler in the list runs in order, and the result is nil exactly when all succeeded, else the first failure's error |
| Routing.MessageRouter.GetHandlers | core/message_handler.go:103-116 | nil exactly for a type without a list; otherwise the list itself, which is non-empty, sorted and for one of the five types |
| Routing.MessageQueue.constructor | core/message_handler.go:128-135 | a new queue is open and empty |
| Routing.MessageQueue.Enqueue | core/message_handler.go:138-152 | a closed queue refuses without enqueuing; an open queue with room appends at the tail |
| Routing.MessageQueue.Close | core/message_handler.go:165-174 | afterwards the queue is closed and reports size 0, whether or not it was closed before |
| Routing.MessageQueue.IsClosed | core/message_handler.go:177-181 | true exactly when the queue has been closed, and then the queue reports size 0 |
| Routing.MessageQueue.Size | core/message_handler.go:184-191 | 0 once closed, otherwise the number of buffered messages |
| Events.Matching | core/event_loop.go:160-161 | the handlers accepting the type, and no others, in registration order |
| Events.MatchingPrefix | core/event_loop.go:155-161 | filtering a list extended at the end gives the old filtered list extended by the filtered extension, so registration order is kept |
| Events.SucceededSnoc | core/event_loop.go:162-168 | after one more accepting handler runs, the event counts as handled exactly when it was handled before or that handler succeeded |
| Events.EventLoop.constructor | core/event_loop.go:51-66 | a non-positive size becomes 1000; the loop starts stopped, with an empty queue and no handlers |
| Events.EventLoop.RegisterHandler | core/event_loop.go:69-73 | the handler is appended at the end, after all earlier ones |
| Events.EventLoop.Start | core/event_loop.go:76-90 | the loop is running afterwards; a running loop is left unchanged |
| Events.EventLoop.Stop | core/event_loop.go:93-106 | the loop is stopped afterwards; a stopped loop is left unchanged |
| Events.EventLoop.Emit | core/event_loop.go:109-125 | a stopped loop gives NotRunning and a full queue gives QueueFull, both leaving the queue unchanged; otherwise the event is appended at the tail; the queue never exceeds its bound |
| Events.EventLoop.HandleEvent | core/event_loop.go:153-178 | every accepting handler of the snapshot runs, in registration order, whatever earlier ones returned; the event counts as handled exactly when one of them succeeded; the result is always nil |
| Events.EventLoop.ProcessNext | core/event_loop.go:128-150 | a running loop takes the oldest queued event off the head and dispatches it to the accepting handlers; otherwise nothing happens |
| Events.EventLoop.GetQueueLength | core/event_loop.go:181-185 | the queue length is never more than the bound |
| Events.EventLoop.IsRunning | core/event_loop.go:188-192 | reports the running flag that `Start` sets and `Stop` clears, the flag `Emit` and `ProcessNext` consult |
| Tools.ToolManager.constructor | core/tool_manager.go:45-50 | a new registry is empty |
| Tools.ToolManager.RegisterTool | core/tool_manager.go:53-64 | a name already present is an "already registered" error with the registry unchanged; otherwise exactly that tool is added under its name and nothing else changes |
| Tools.ToolManager.GetTool | core/tool_manager.go:67-73 | found exactly when a tool is registered under the name, and then it is that tool, carrying that name |
| Tools.ToolManager.ListTools | core/tool_manager.go:76-85 | one element per registered tool, each registered tool appears, and no name appears twice |
| Tools.ToolManager.ExecuteTool | core/tool_manager.go:88-112 | the result always carries the call's ID and name; an unknown name gives "tool <name> not found" and no result; a failing handler gives its message and no result; a successful one gives its result and an empty error |
| Tools.ToolManager.ErrorEmptyMeansRan | core/tools.go:84-108 | the error is empty exactly when the tool is registered and its handler returned a value or failed with an empty message |
| Tools.NotFoundMentionsTool | core/tools.go:85-92 | the not-found message of either registry contains the tool's name and is never empty |
| MemoryMessages.DecodePayload | core/memory_message_handler.go:29-38 | decoding succeeds exactly for null or an object whose `key` is a string or null; null gives the zero record; the key is the `key` string, or "" when it is absent or null; the value is the `value` field, nil when absent |
| MemoryMessages.DecodeEncode | core/memory_message_handler.go:16-20 | every key/value record survives encoding followed by decoding |
| MemoryMessages.CanHandle | core/memory_message_handler.go:53-57 | accepts exactly the types the router record (priority 150) admits, and none of them is one of the five routable types |
| MemoryMessages.NeverRouted | core/message_handler.go:53-77 | registering the memory handler with the router leaves every handler list as it was, because none of its three types is one of the five types registration looks at, so `Route` never reaches it |
| MemoryMessages.MemoryMessageHandler.constructor | core/memory_message_handler.go:22-25 | the handler wraps the given memory manager |
| MemoryMessages.MemoryMessageHandler.HandleGet | core/memory_message_handler.go:70-88 | succeeds exactly when the key is in long-term memory; otherwise a key-not-found error naming the key |
| MemoryMessages.MemoryMessageHandler.Handle | core/memory_message_handler.go:28-50 | a payload that does not decode is an error for every type; `memory_store` writes the key into long-term memory, returns the write's error and makes a following get succeed; `memory_get` and `memory_delete` leave memory unchanged, the first failing for a missing key and the second always succeeding; any other type is an unsupported-type error |
| ToolCallMessages.DecodePayload | core/tool_call_message_handler.go:27-35 | decoding succeeds exactly for null or an object whose `tool_name` is a string or null and whose `args` is an object or null; null gives the zero record; the name is the `tool_name` string, or "" when absent or null; the arguments are the `args` object's fields, or the empty map when absent or null |
| ToolCallMessages.CanHandle | core/tool_call_message_handler.go:63-71 | accepts exactly the types the router record (priority 200) admits, and the one it accepts, `tool_response`, is a routable type |
| ToolCallMessages.DecodeEncode | core/tool_call_message_handler.go:10-13 | every name/arguments record survives encoding followed by decoding |
| ToolCallMessages.Handle | core/tool_call_message_handler.go:21-61 | any type other than `tool_response` is ignored and nothing runs; an undecodable payload is the only error; otherwise the call has the message's ID and the payload's name and arguments, the report carries the tool's result and error, success is reported exactly when the error is empty, and the handler itself succeeds |
| ToolCallMessages.UnknownToolReportedNotFailed | core/tool_call_message_handler.go:44-60 | a call to an unregistered tool does not make the handler fail, and the report says it did not succeed |
| ToolCallMessages.SuccessMeansToolRan | core/tool_call_message_handler.go:50-55 | the reported success flag is true exactly when the tool is registered and its handler returned a value or failed with an empty message |
| ConfigConversion.ConvertConfigToMemoryConfig | core/memory_config.go:6-12 | the capacity is the maximum entry count; the file is the storage directory followed by `/long_term.json`, so it starts with the directory and is 15 characters longer; the interval is the raw value 5 |
| ConfigConversion.IntervalIsFiveNanoseconds | core/memory_config.go:10 | the converted interval is 5 nanoseconds for every input, less than a minute and not the manager's five-minute default |
| ConfigConversion.ConvertConfigIntended | core/memory_config.go:6-12 | the same conversion with a five-minute interval, equal to the manager's default interval |
| ConfigConversion.IntendedMatchesDefault | test/memory.go:44-48 | the corrected conversion of capacity 1000 and directory `memory` is exactly the manager's default configuration |

## Left out

- Locking, goroutines, channels and the `WaitGroup`: every operation is a sequential method. The read-lock to write-lock upgrade in `GetShortTermMemory` is one step.
- The event loop's dispatch goroutine is modelled one turn at a time by `ProcessNext`; the `ctx.Done()` cases of `run` and `Emit` are not modelled.
- Events.EventLoop.Stop: does not model closing the event channel and cancelling the context. Events still queued are kept in the model, and `Start` after `Stop` acts as a fresh start, where the source's consumer would exit at once and a later `Emit` could panic on the closed channel.
- Routing.MessageQueue.Enqueue: a full buffer returns `WouldBlock` instead of blocking the caller; `Dequeue` and its blocking receive are not modelled. A negative buffer size, on which the source panics, is excluded by the type `nat`.
- File and JSON I/O: `saveLongTermMemory`, `loadLongTermMemory`, the index file, per-entry files and directory creation. Their outcomes are parameters (`writeFailure`, `StoredState`, the index found on disk). The I/O errors of `Add`, `Get`, `Delete`, `Search` and `CleanupExpired` are not modelled.
- `StartCleanup`'s ticker loop: only the sweep it calls is modelled.
- Per-entry clock readings: `GetAllShortTermMemory`, `SearchMemory` and `FileMemoryStore.Search` call `time.Now()` once for every entry they visit; the model reads the clock once (`now`) for the whole scan, so it does not capture an entry visited later being dropped as expired while an entry visited earlier, with an earlier deadline, was kept.
- JSON numbers: Go decodes every number inside an `interface{}` (the memory payload's `value`, the tool call's `args`) as `float64`, losing integers above 2^53 and changing how `%v` renders them. `Value.Number` holds an unbounded integer, so the `DecodeEncode` round trips hold for the model's values only, not for every Go payload.
- `generateID` and `time.Now`: parameters.
- Unicode case folding: `strings.ToLower` is modelled by ASCII lower-casing.
- `fmt.Sprintf("%v")`: the parameter `render`.
- The floating-point `short_term_percentage` statistic.
- The `ctx.Value("current_message")` metadata write in `handleGet`, and the logging in every handler.
- JSON payload decoding matches field names exactly, where Go's decoder also accepts other letter cases; a payload that cannot be marshalled (a channel or a function) cannot be written as a `Value`.
- The `Tool` handler field: a tool's handler is the parameter `invoke`.
- `ToolCallEvent` and its JSON methods in `core/tools.go`.
- The settings structure the configuration conversion reads is not part of this model; only its two fields that the conversion uses are represented.
- The logger fields and every log call.

## Findings

| source | as written | input that shows it | evidently intended | confidence | as-written member | corrected member |
|---|---|---|---|---|---|---|
| core/memory_config.go:10 | `CleanupInterval: 5` is a `time.Duration` of 5, that is five nanoseconds | any settings, for example capacity 1000 and directory `memory` | five minutes, as the comment on the line says and as the manager's default configuration uses | high (not executed) | ConfigConversion.IntervalIsFiveNanoseconds | ConfigConversion.IntendedMatchesDefault |
