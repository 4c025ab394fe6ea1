# Verified models of Alga

Alga is an incident-response platform: a Go backend, an agent SDK for Go and a
plugin installer in JavaScript. This project models the parts of it that decide
something on their own: streaming checks, caches, limiters, retry loops, the
reconnect protocol of the event stream, and the writers and mergers whose output
somebody else reads back. Each file is one component.

| file | component |
|---|---|
| `SamlShape.dfy` | shape check over the tokens of a SAML response |
| `SamlFlow.dfy` | SAML relay states, replay memory and assertion lifetime |
| `MessageDedup.dfy` | the SDK's bounded, time-limited cache of message ids |
| `SseParser.dfy`, `SseStream.dfy` | the SDK's event-stream line loop, and whole streams beside the standard |
| `SseProtocol.dfy` | reconnect loop, heartbeat loop and Stop as interleaved steps |
| `RestClient.dfy` | the SDK's retry loop, idempotency keys and backoff |
| `Idempotency.dfy` | the backend's Idempotency-Key middleware under those retries |
| `Utf8Truncate.dfy` | truncation that does not cut a character |
| `RateLimit.dfy`, `LoginLimit.dfy` | the two in-memory limiters and their cleanup; the Valkey rate limiter |
| `LoginParity.dfy` | the Valkey login limiter beside the in-memory one |
| `DirMirror.dfy`, `PluginConfig.dfy` | the installer's directory mirror and settings merge |
| `PostMortem.dfy`, `PostMortemHistory.dfy` | post-mortem workflow, and its records by the requests that made them |
| `Timeline.dfy` | merged timeline of a post-mortem |
| `ICalendar.dfy` | calendar export of an on-call schedule |
| `Recipients.dfy`, `RecipientsOrder.dfy` | the agents that receive a coordination message, their roles, triggers and order |
| `Common.dfy`, `GoText.dfy` | shared definitions |

`dafny verify dfyconfig.toml` checks everything.

The clock, the network, the file system, random numbers and the scheduler are
arguments: every statement is for all their values, under the conditions it
names. Times are integers in nanoseconds.

## What the proofs found

Where a promise of the code or its documentation does not hold for all inputs,
the model keeps the code, and the proofs give the exact condition.

- The dedup cache promises that an immediate replay is never taken for new
  (`dedup.go:10-13`). With `maxEntries` 1 the trim before the lookup empties the
  cache and every immediate replay is taken for new. With a clock that moves
  between different ids, the promise holds exactly from `maxEntries` 2 on
  (`MessageDedup.ImmediateReplay`). While the clock stands, the trim may remove any
  of the equally old entries, and a cache of any capacity can miss an immediate
  replay (`MessageDedup.StandingClock`). `MessageDedup.ReplayExact` says exactly when
  a cached id can be missed and when it can be reported.
- `options.go:30` says that a negative retry count is treated as 0. It is not
  (`client.go:72-76` applies the defaults first): a call that may be retried then
  sends nothing and returns nil (`RestClient.NilMeansSuccess`).
- `client.go:166-171` says that mutations on paths other than the messages
  endpoint are performed exactly once. With an explicit key they are retried,
  although the backend replays keys only on that endpoint. No caller in the SDK
  does this. Against an ideal server, one that replays a key as soon as it has run
  it, `RestClient.ReplaySafe` is the exact condition for at most one effect.
- The backend's own middleware is not that server. `idempotency.go:78-81` promises
  that a request is executed at most once per key within the ttl, but the key is
  looked up first and stored only after a 2xx answer. In every run a message takes
  effect at most once if and only if, of any two arrivals that would take effect,
  one finds an answer stored, alive and readable (`Idempotency.EffectsExact`). Over
  all runs a retried call is safe if and only if the middleware looks at its key
  and none of five faults can occur: a retry overtakes the first answer, an effect
  is not answered 2xx, the answer is not saved, a lookup fails, or the retry comes
  after the record's end (`Idempotency.AlwaysOnceIff`). With any one of them there
  is a run with two effects.
- The delay between attempts is promised as exponential with a cap of 30 seconds
  (`client.go:324-326`). The product wraps from attempt 34 on: the promise is kept
  exactly up to attempt 33 and at 37, 41, 42, 45, 47, 50, 51 and 53; at all others
  nothing is waited (`RestClient.DelayExact`).
- A `Stop` that overtakes `Start` ends the stream loop but leaves the heartbeat
  running for good (`SseProtocol.StopNeedsStart`, `StopOvertakesStart`).
- The fixed-window limiter forgets a key five minutes after its last request.
  With a window longer than that, a forgotten key gets a second budget inside its
  window. The cleanup is unnoticeable exactly for windows up to the ttl plus one
  nanosecond. All limiters in the repository use one minute.
- `ratelimit.go:147-152` says that memory and Valkey mode match exactly. EXPIRE is
  given whole seconds, so they match exactly when that span is the window: for whole
  seconds, if a key is gone at its deadline (`RateLimit.ParityIff`,
  `RateLimit.EqualSpans`).
- The two login limiters answer alike in every run exactly when
  `LoginParity.Compatible` holds: at least two attempts, windows and locks that end
  alike, and a lock longer than the window (or a negative window). The deployed 5
  attempts, 15 and 30 minutes are compatible if a key is gone only after its
  deadline. The two memory limiters end their windows differently (`>=` and `>`), so
  no rule for the deadline instant makes both deployed limiters match their memory
  mode.
- The fixed window's budget over a sliding interval is 2 * limit - 1, and this is
  attained.
- The login limiter's cleanup is unnoticeable exactly unless the lockout is
  negative and the window is not.
- An assertion is accepted at most once as long as the library's clock skew and
  the time from its check to the replay mark stay below 24 hours less 18 minutes
  together; at the bound it can be accepted twice.
- Published post-mortems are immutable as long as no handler writes on a stale
  read. The handlers read and write in two steps without a guard, so an edit that
  is checked before a publication and written after it takes the record back to
  "approved" (`PostMortem.StaleEditUnpublishes`), and of two publications that are
  both checked first the later sets a new publication date
  (`PostMortem.DoublePublication`). `PostMortem.OnlyStaleWritesAlter` says exactly
  which writes alter a published record.
- The blameless confirmation gates the entry into review only; an edit may clear
  it afterwards and the record can still be published (`PostMortem.ClearedRun`). In
  runs without stale writes a published record is still confirmed if and only if no
  edit withdrew the confirmation after the last entry into review
  (`PostMortem.StillConfirmed`).
- The event-stream loop drops leading empty `data:` lines, ignores a bare `data` or
  `event` line and trims event names, unlike the WHATWG HTML Standard;
  `SseParser.AgreesWithStandard` says exactly on which blocks the two agree. It
  also keeps a leading byte order mark and does not end lines at a lone CR
  (`SseStream.SameLinesIff`, `BomMatters`, `LoneCRMatters`); on all other streams the
  same events are dispatched if and only if all blocks agree
  (`SseStream.StreamAgrees`).
- Installing and then uninstalling the plugin leaves nothing of the plugin's and
  everything of others, on every configuration (`PluginConfig.StripAfterEnsure`).
  It equals uninstalling alone exactly on configurations that have the containers
  the installer would create (`PluginConfig.UndoneOnlyIfTidy`).
- `incident_coordination.go:242` collects the agents that may be mentioned and never
  consults them, so any `agent:` mention is addressed. All recipients are in that
  set if and only if all admissible mentioned agents are (`Recipients.AllAllowed`).

## Model

| member | source | states |
|---|---|---|
| `SamlShape.CheckShape` | apps/backend/api/saml.go:714-765 | The token loop accepts exactly the complete streams that spell a forest whose roots are protocol Responses with, in total, one direct Assertion, no direct EncryptedAssertion, and one direct Audience in every AudienceRestriction at any depth; the rejection reason is fixed too |
| `SamlShape.AcceptedIffGoodDocument` | apps/backend/api/saml.go:722-765 | Streaming versus tree, for every token stream, bracketed or not; and a stream spells at most one forest |
| `SamlShape.FirstFault` | apps/backend/api/saml.go:730-758 | Behind a forest without fault the next token decides the reason: a root that is no Response, an end that nothing or another element opened, the end of a restriction without exactly one Audience |
| `SamlShape.EndOfInput` | apps/backend/api/saml.go:724-765 | At the end of input behind such a forest: a decoder error, a wrong number of assertions, or acceptance |
| `SamlShape.EndInside` | apps/backend/api/saml.go:762-764 | Input that ends inside an element is rejected, whatever went before |
| `SamlShape.SampleGood` | apps/backend/api/saml.go:730-764 | A response with a assertions, e encrypted ones and n audiences in a restriction is good if and only if a = 1, e = 0 and n = 1 |
| `SamlShape.RunForest` | apps/backend/api/saml.go:730-760 | Feeding a forest with well-formed restrictions moves the machine by exactly the forest's counts, whatever follows |
| `SamlShape.ReadForest` | apps/backend/api/saml.go:730-760 | Accepted tokens can be read back as a forest up to the closing token of the innermost open element |
| `SamlShape.FlattenInjective` | apps/backend/api/saml.go:751-759 | The tokens determine the document |
| `SamlShape.IncompleteIsRejected` | apps/backend/api/saml.go:727-729 | A stream on which the decoder fails is never accepted |
| `SamlFlow.FlowStore.constructor` | apps/backend/api/saml_flow.go:103-108 | A new store remembers nothing |
| `SamlFlow.FlowStore.Set` | apps/backend/api/saml_flow.go:110-129 | Sweeps both maps and stores the payload unless the relay state is live |
| `SamlFlow.FlowStore.Consume` | apps/backend/api/saml_flow.go:131-143 | Removes the relay state and returns its payload if it has not expired |
| `SamlFlow.FlowStore.MarkAssertionUsed` | apps/backend/api/saml_flow.go:145-155 | Reports first use and remembers it for 24 hours |
| `SamlFlow.ReplayMemory` | apps/backend/api/saml_flow.go:119-123 | Over every run with a clock that does not go back, a key is held exactly while a successful mark is younger than 24 hours; the sweep never forgets a live key |
| `SamlFlow.MarkExact` | apps/backend/api/saml_flow.go:145-155 | A mark succeeds if and only if no successful mark of the same key is younger than 24 hours |
| `SamlFlow.RelayMemory` | apps/backend/api/saml_flow.go:110-143 | A relay state is held exactly while a successful Set of the last ten minutes has not been consumed |
| `SamlFlow.SetExact` | apps/backend/api/saml_flow.go:124-128 | Set succeeds if and only if nothing is open under the relay state |
| `SamlFlow.ConsumeExact` | apps/backend/api/saml_flow.go:131-143 | Consume returns a payload if and only if a successful Set stored it less than ten minutes ago and nothing consumed it |
| `SamlFlow.ConsumedOnce` | apps/backend/api/saml_flow.go:131-143 | Between two successful Consumes of a relay state lies a successful Set of it |
| `SamlFlow.ValidateLifetime` | apps/backend/api/saml.go:768-783 | The check passes if and only if all timestamps are there, none is issued more than 3 minutes ahead, and the lifetime and every confirmation end within 15 minutes of issue |
| `SamlFlow.LifetimeExact` | apps/backend/api/saml.go:768-783 | Issued e after the check, an assertion passes if and only if e is at most 3 minutes and every end, each confirmation's included, is there and at most 15 minutes after the issue |
| `SamlFlow.EndsSoon` | apps/backend/api/saml.go:768-783 | What passes the check ends, with all its confirmations, within 18 minutes |
| `SamlFlow.AcceptedOnce` | apps/backend/api/saml.go:300-341 | No run accepts an assertion twice if skew and handling delay together stay below 24 h less 18 min |
| `SamlFlow.BoundIsExact` | apps/backend/api/saml_flow.go:21-25 | At that bound, some run accepts an assertion twice |
| `SamlFlow.KeyInjective` | apps/backend/api/saml_flow.go:161-164 | Different assertions have different key texts, for issuers without NUL |
| `MessageDedup.Dedup.constructor` | integrations/alga-agent-sdk-go/dedup.go:21-33 | Capacity at least one, ttl five minutes when not positive, empty cache |
| `MessageDedup.Dedup.IsDuplicate` | integrations/alga-agent-sdk-go/dedup.go:37-58 | Drops expired entries, trims to nine tenths when full, answers whether the id is left, and records it as newest; never exceeds the capacity |
| `MessageDedup.Dedup.Evict` | integrations/alga-agent-sdk-go/dedup.go:75-81 | Leaves exactly the entries that are not older than the ttl |
| `MessageDedup.Dedup.TrimTo` | integrations/alga-agent-sdk-go/dedup.go:84-98 | Leaves the target number of entries, none older than a removed one |
| `MessageDedup.Dedup.Oldest` | integrations/alga-agent-sdk-go/dedup.go:87-95 | The scan finds an entry with the least time |
| `MessageDedup.Dedup.Clear` | integrations/alga-agent-sdk-go/dedup.go:61-65 | Empties the cache |
| `MessageDedup.Dedup.Size` | integrations/alga-agent-sdk-go/dedup.go:69-73 | The number of cached ids |
| `MessageDedup.SizeBounded` | integrations/alga-agent-sdk-go/dedup.go:46-48 | In every run the cache never exceeds its capacity |
| `MessageDedup.ReplayIsDuplicate` | integrations/alga-agent-sdk-go/dedup.go:37-58 | With a clock that does not go back, an id last seen within the ttl is reported if 10 (n + 1) <= 9 max for the number n of other ids seen at that time or later |
| `MessageDedup.ReplayAfterFewOthers` | integrations/alga-agent-sdk-go/dedup.go:37-58 | With a moving clock: if 10 (n + 1) <= 9 max for the number n of other ids since, a replay within the ttl is reported |
| `MessageDedup.ReplayAfterManyOthers` | integrations/alga-agent-sdk-go/dedup.go:44-48 | With a moving clock: if the cache is full and 9 max < 10 (n + 1), the replay is taken for new |
| `MessageDedup.TrimLeaves` | integrations/alga-agent-sdk-go/dedup.go:46-48 | A trim of a full cache leaves k entries with 10 k <= 9 max < 10 (k + 1) |
| `MessageDedup.DuplicateWasSeen` | integrations/alga-agent-sdk-go/dedup.go:35-36 | A reported id was observed within the ttl, and not cleared since |
| `MessageDedup.ImmediateReplay` | integrations/alga-agent-sdk-go/dedup.go:10-13 | With no other id observed at the same moment, an immediate replay within the ttl is reported if and only if the capacity is at least two |
| `MessageDedup.StandingClock` | integrations/alga-agent-sdk-go/dedup.go:84-98 | For every capacity, some run in which the clock stands does not report an immediate replay |
| `MessageDedup.ReplayExact` | integrations/alga-agent-sdk-go/dedup.go:37-98 | A cached id within the ttl can be taken for new if and only if the cache is full and 9 max < 10 (n + 1) for the n others as new, and can be reported if and only if it is not full or 10 (n + 1) <= 9 max for the n newer ones |
| `MessageDedup.EntriesAreLastSeen` | integrations/alga-agent-sdk-go/dedup.go:50-57 | Every entry carries the time of its id's last observation since the last Clear |
| `MessageDedup.CacheIsRecentList` | integrations/alga-agent-sdk-go/dedup.go:37-98 | Over every run with a moving clock the cache, and every answer, is that of a list of ids by most recent observation |
| `MessageDedup.NewestIsPrefix` | integrations/alga-agent-sdk-go/dedup.go:84-98 | Removing oldest entries from distinct times is taking a prefix of that list |
| `SseParser.ServeLines` | integrations/alga-agent-sdk-go/sse.go:231-281 | The loop dispatches exactly the events of the blank-line-terminated blocks seen before cancellation, in order |
| `SseParser.ParseIsBlocks` | integrations/alga-agent-sdk-go/sse.go:241-280 | The stateful loop equals the block-by-block definition; an unterminated event is never dispatched |
| `SseParser.DataValueOfLine` | integrations/alga-agent-sdk-go/sse.go:266-273 | Of a data line exactly one space behind the colon is dropped, if it is there |
| `SseParser.EventValueOfLine` | integrations/alga-agent-sdk-go/sse.go:260-264 | An event line sets the trimmed name |
| `SseParser.IgnoredLine` | integrations/alga-agent-sdk-go/sse.go:257-259 | A comment, `id:` or unknown line inserted anywhere changes nothing |
| `SseParser.StreamsConcatenate` | integrations/alga-agent-sdk-go/sse.go:243-255 | A stream ending in a blank line, followed by another, dispatches the one's events and then the other's |
| `SseParser.RoundTrip` | integrations/alga-agent-sdk-go/sse.go:228-281 | Any list of events with trimmed non-empty names, printed, scanned into lines and parsed, comes back in order, each as ReadBack says |
| `SseParser.RoundTripExact` | integrations/alga-agent-sdk-go/sse.go:228-281 | Events whose data survives come back exactly |
| `SseParser.SurvivesExactly` | integrations/alga-agent-sdk-go/sse.go:266-273 | Data comes back unchanged if and only if its first line is non-empty and no line ends in CR |
| `SseParser.AgreesWithStandard` | integrations/alga-agent-sdk-go/sse.go:243-273 | On every block of lines the event is that of section 9.2.6 of the WHATWG HTML Standard if and only if the block has no data, or no bare data line, a non-empty first data value and the same event name by both rules |
| `SseParser.LastLineNames` | integrations/alga-agent-sdk-go/sse.go:260-264 | The standard's name of an event is that of the block's last event line, a bare one included |
| `SseStream.SameLinesIff` | integrations/alga-agent-sdk-go/sse.go:231-243 | For every stream of characters, client and WHATWG HTML Standard cut the same lines if and only if there is no leading byte order mark and no CR before another character than LF |
| `SseStream.StreamAgrees` | integrations/alga-agent-sdk-go/sse.go:231-281 | On such streams they dispatch the same events if and only if they agree on every block that a blank line ends |
| `SseStream.BomMatters` | integrations/alga-agent-sdk-go/sse.go:243-273 | A byte order mark before a data line makes the client lose the event |
| `SseStream.LoneCRMatters` | integrations/alga-agent-sdk-go/sse.go:243-273 | A lone CR in a data line becomes data for the client |
| `SseProtocol.ReachableInv` | integrations/alga-agent-sdk-go/sse.go:108-196 | Every step of Start, Stop, both loops, timers, ticks and readers keeps the protocol's invariant |
| `SseProtocol.NoConnectAfterAuth` | integrations/alga-agent-sdk-go/sse.go:163-172 | After the stream loop has seen an authentication error no connection attempt begins, in any interleaving |
| `SseProtocol.ConnectsAfterCancel` | integrations/alga-agent-sdk-go/sse.go:153-157 | After a cancel at most one more attempt begins, and only if the loop had passed its test |
| `SseProtocol.LoopsWindDown` | integrations/alga-agent-sdk-go/sse.go:183-194 | After a cancel both loops together take at most 15 more steps, plus 5 per heartbeat tick |
| `SseProtocol.NeverBlocked` | integrations/alga-agent-sdk-go/sse.go:167-170 | A loop that has not ended can always step; neither waits for the error channel |
| `SseProtocol.ErrorsAreDelivered` | integrations/alga-agent-sdk-go/sse.go:404-407 | An error is dropped only while another is buffered; offered errors equal dropped, drained and buffered ones; once one was offered the reader has or had one |
| `SseProtocol.HeartbeatAuthEndsClient` | integrations/alga-agent-sdk-go/sse.go:391-417 | Once a heartbeat is refused no further one is sent, in any interleaving; the error is offered before the loop ends, and when it has ended the shared context is cancelled |
| `SseProtocol.HeartbeatAuthReported` | integrations/alga-agent-sdk-go/sse.go:400-407 | Over every run: the heartbeat has failed or offered its error if and only if some heartbeat was refused |
| `SseProtocol.StreamAuthReported` | integrations/alga-agent-sdk-go/sse.go:163-172 | Over every run: the ended stream loop has offered its error if and only if it met an authentication failure; otherwise a cancel or Stop ended it |
| `SseProtocol.StopCancels` | integrations/alga-agent-sdk-go/sse.go:127-135 | Stop on a started client cancels its context |
| `SseProtocol.CancelEndsWaits` | integrations/alga-agent-sdk-go/sse.go:153-189 | On a cancelled context the pause, the wait for a tick and the tests all end their loop |
| `SseProtocol.ClientGoesOn` | integrations/alga-agent-sdk-go/sse.go:152-195 | A client that nothing has ended connects, retries after the pause and sends a heartbeat at a tick |
| `SseProtocol.SurroundingsAct` | integrations/alga-agent-sdk-go/sse.go:108-135 | When Stop, cancels, ticks and the reader can act, and what they do |
| `SseProtocol.RetryDelay` | integrations/alga-agent-sdk-go/sse.go:158-189 | The delay is Retry-After, or min(2^(k+1), 60) seconds after failure k since the last connection |
| `SseProtocol.StopNeedsStart` | integrations/alga-agent-sdk-go/sse.go:108-135 | With no other cause, the context ends cancelled if and only if some Stop came after Start; the heartbeat ends only then |
| `SseProtocol.StopOvertakesStart` | integrations/alga-agent-sdk-go/sse.go:127-135 | A run in which Stop precedes Start leaves the heartbeat running with a live context |
| `SseProtocol.StreamAuthLeavesHeartbeat` | integrations/alga-agent-sdk-go/sse.go:163-172 | A run in which the stream's authentication failure is reported while the heartbeat goes on |
| `RestClient.DoJsonIdem` | integrations/alga-agent-sdk-go/client.go:172-267 | Every send carries the call's method and path, and the generated key for a message without one, else the caller's; the number of sends and the result are exactly those of Ends |
| `RestClient.FirstFinalReply` | integrations/alga-agent-sdk-go/client.go:192-263 | A call that reads or has a key, its own or a message's generated one, gets over up to maxRetries transient failures (429, 500, 502, 503, 504, network); the first other reply ends it and decides the result |
| `RestClient.RetriesExhausted` | integrations/alga-agent-sdk-go/client.go:187-256 | With transient failures only, such a call makes maxRetries + 1 attempts, any other a single one, and the last failure is the result |
| `RestClient.ContextEnds` | integrations/alga-agent-sdk-go/client.go:193-213 | A context that is done before an attempt or during a pause ends the call with its error |
| `RestClient.EndsUnique` | integrations/alga-agent-sdk-go/client.go:192-266 | The environment determines the number of sends and the result |
| `RestClient.SendsBounded` | integrations/alga-agent-sdk-go/client.go:182-193 | At most maxRetries + 1 sends; a mutation without key at most one |
| `RestClient.FinalRepliesEnd` | integrations/alga-agent-sdk-go/client.go:236-256 | An authentication failure, a permanent error or a success is the last attempt and decides the result |
| `RestClient.NilMeansSuccess` | integrations/alga-agent-sdk-go/client.go:258-266 | Nil if and only if the last response was below 400 and decoded, or a negative retry count kept the loop from running |
| `RestClient.KeyRunsOnce` | integrations/alga-agent-sdk-go/client.go:283-285 | Assuming a server that replays a key as soon as it has run it (not the backend's middleware): however the requests of all clients interleave, a keyed message takes effect at most once |
| `RestClient.EffectAtMostOnce` | integrations/alga-agent-sdk-go/client.go:166-190 | On that assumed server, a replay-safe call takes effect at most once, whatever the network does |
| `RestClient.UnsafeCallRunsTwice` | integrations/alga-agent-sdk-go/client.go:187-190 | On that assumed server, for every other call some run takes effect twice |
| `RestClient.NilMeansOneEffect` | integrations/alga-agent-sdk-go/client.go:172-267 | On that assumed server, a nil result of a message means exactly one effect |
| `Idempotency.RecordIsStore` | apps/backend/api/platform/idempotency.go:127-151 | Every cached record is a 2xx answer stored for that key, with its status and the end of its life |
| `Idempotency.RunsExact` | apps/backend/api/platform/idempotency.go:92-127 | The handler runs unless the key is too long, or the lookup is answered and an answer stored for the key is still alive |
| `Idempotency.LetThrough` | apps/backend/api/platform/idempotency.go:93-104 | Without a store or key, on another path or with a verb that changes nothing the handler always runs |
| `Idempotency.LongKeyRefused` | apps/backend/api/platform/idempotency.go:105-108 | A key of more than 255 characters never gets to the handler |
| `Idempotency.StoredExactly` | apps/backend/api/platform/idempotency.go:127-151 | An answer is stored if and only if it is 2xx, or the handler wrote none, and Set succeeds |
| `Idempotency.LifetimeExact` | apps/backend/valkey/idempotency.go:46-54 | A record lives for the configured ttl in whole seconds, for a day without one |
| `Idempotency.EffectsExact` | apps/backend/api/platform/idempotency.go:92-153 | In every interleaving of requests and returning handlers, a request takes effect at most once if and only if of any two arrivals that would take effect one is kept from the handler |
| `Idempotency.FaultlessOnce` | apps/backend/api/platform/idempotency.go:78-91 | Without overtaking retries, effects without 2xx, failed saves, failed lookups and late retries, a keyed message takes effect at most once |
| `Idempotency.AlwaysOnceIff` | integrations/alga-agent-sdk-go/client.go:166-190 | A call of the client takes effect at most once in all runs against the middleware if and only if it is not retried, or its key is looked at and no such fault is possible, or the key is too long |
| `Idempotency.MessagesOnceIff` | integrations/alga-agent-sdk-go/client.go:166-190 | The SDK's messages take effect at most once in all runs if and only if they are not retried or none of the five faults can occur |
| `Idempotency.UnguardedRunsTwice` | apps/backend/api/platform/idempotency.go:110-151 | For every other call and any one fault, a run of client and middleware with two effects and a nil result |
| `Idempotency.NilMeansEffect` | integrations/alga-agent-sdk-go/client.go:258-263 | Against the middleware, nil means at least one effect, directly or by a replayed answer, and without faults exactly one |
| `RestClient.DelayExact` | integrations/alga-agent-sdk-go/client.go:331-332 | The delay before jitter is min(2^attempt, 30) seconds if and only if the attempt is at most 33 or one of 37, 41, 42, 45, 47, 50, 51 and 53; otherwise it is not positive |
| `RestClient.BackoffBounds` | integrations/alga-agent-sdk-go/client.go:327-335 | At those attempts the pause is that delay plus less than a fifth |
| `Utf8Truncate.Truncate` | integrations/alga-agent-sdk-go/client.go:298-307 | For valid UTF-8 the longest valid prefix within the limit, at most 3 bytes short; for any bytes, the cut before the last start byte |
| `Utf8Truncate.ValidIffEncoded` | integrations/alga-agent-sdk-go/client.go:298-298 | The valid texts are exactly the encodings of Unicode scalar values by section 3 of RFC 3629 |
| `Utf8Truncate.BoundaryIsRuneStart` | integrations/alga-agent-sdk-go/client.go:302-305 | In valid text a prefix is valid if and only if the next byte starts a character |
| `Utf8Truncate.NoFourTails` | integrations/alga-agent-sdk-go/client.go:302-305 | Four bytes of valid text contain a start byte |
| `RateLimit.RateLimiter.constructor` | apps/backend/api/ratelimit.go:171-188 | A limiter without positive limit and window allows everything |
| `RateLimit.RateLimiter.Allow` | apps/backend/api/ratelimit.go:200-222 | The answer and the key's new counter; other keys stay |
| `RateLimit.RateLimiter.Cleanup` | apps/backend/api/ratelimit.go:240-246 | Keeps exactly the keys seen within the ttl |
| `RateLimit.CleanupUnobservable` | apps/backend/api/ratelimit.go:200-248 | Cleanup steps anywhere in a run leave all answers the same, for windows up to ttl + 1 ns |
| `RateLimit.CleanupObservable` | apps/backend/api/ratelimit.go:241-245 | For every longer window some run's answers differ |
| `RateLimit.ParityIff` | apps/backend/valkey/ratelimit.go:14-70 | In all runs, cleanups included, the answers equal those of the Valkey counter if and only if EXPIRE's whole seconds end a window when memory does and the window is at most the ttl + 1 ns |
| `RateLimit.EqualSpans` | apps/backend/valkey/ratelimit.go:63-63 | The spans are equal exactly for whole seconds, if a key is gone at its deadline; for whole seconds plus 1 ns, if only after it |
| `RateLimit.IntervalBudget` | apps/backend/api/ratelimit.go:212-221 | In any half-open interval of one window's length a key gets at most 2 limit - 1 requests through |
| `RateLimit.IntervalBudgetTight` | apps/backend/api/ratelimit.go:212-221 | That bound is attained for every limit |
| `RateLimit.WindowBudget` | apps/backend/api/ratelimit.go:212-221 | In every run, cleanups included, for windows up to ttl + 1 ns, at most the limit is let through from the request that opens a window to the window's end |
| `LoginLimit.LoginLimiter.constructor` | apps/backend/api/ratelimit.go:268-280 | A new limiter has no entries |
| `LoginLimit.LoginLimiter.CheckLoginAllowed` | apps/backend/api/ratelimit.go:287-328 | The verdict with remaining attempts and unlock time, and the key's new entry |
| `LoginLimit.LoginLimiter.Reset` | apps/backend/api/ratelimit.go:331-335 | Forgets the key |
| `LoginLimit.LoginLimiter.Cleanup` | apps/backend/api/ratelimit.go:353-360 | Keeps exactly the entries seen within window plus lockout |
| `LoginLimit.CleanupUnobservable` | apps/backend/api/ratelimit.go:287-362 | Cleanup steps anywhere in a run leave all verdicts the same, if the lockout is not negative or the window is |
| `LoginLimit.CleanupObservable` | apps/backend/api/ratelimit.go:355-359 | Otherwise some run's verdicts differ |
| `LoginLimit.KeysAreIsolated` | apps/backend/api/ratelimit.go:287-335 | In every run, cleanups included and under the condition of CleanupUnobservable, the verdicts of a key are those of its own attempts and resets |
| `LoginLimit.LockHoldsInRuns` | apps/backend/api/ratelimit.go:303-306 | In every such run, after a verdict with an unlock time every attempt of the key before that time is denied with it, unless the key is reset; attempts, cleanups and the window's end neither extend nor lift the lock |
| `LoginLimit.AllowanceInRuns` | apps/backend/api/ratelimit.go:308-327 | In every such run, from an attempt that opens a window to its end at most max(1, maxAttempts - 1) attempts are allowed, unless the key is reset |
| `LoginLimit.AttemptInRuns` | apps/backend/api/ratelimit.go:314-327 | In every such run, the further attempts in a window are allowed with one fewer left each time, and the one that leaves none is denied until the lockout from then |
| `LoginLimit.WindowAllowance` | apps/backend/api/ratelimit.go:308-327 | The same for one key until its window rolls over, however long a lock delays that |
| `LoginParity.AlikeIff` | apps/backend/valkey/ratelimit.go:22-131 | The two login limiters allow and count alike in every run of a key if and only if: at least two attempts, and a negative window, or EXPIRE's span is the window + 1 ns and the lock is whole milliseconds and longer than the window |
| `LoginParity.CompatibleExactly` | apps/backend/valkey/ratelimit.go:22-131 | Spelled out: at least two attempts, and a negative window, or keys that outlive their deadline instant, whole seconds of window and whole milliseconds of a longer lock |
| `LoginParity.RunsAlike` | apps/backend/valkey/ratelimit.go:93-131 | Then every run of the memory limiter, with cleanups and other keys, answers a key as Valkey would |
| `LoginParity.DeployedAlike` | apps/backend/app/wire.go:689-694 | The deployed settings are compatible if a key is gone only after its deadline, and not if at it |
| `DirMirror.CopyIfChanged` | integrations/alga-openclaw-plugin/install.js:227-232 | The file becomes the source's; the flag tells whether it was not; a directory in its place is an error |
| `DirMirror.CopyDirRecursive` | integrations/alga-openclaw-plugin/install.js:261-269 | A fresh copy equals the source tree |
| `DirMirror.CopyDirIfChanged` | integrations/alga-openclaw-plugin/install.js:234-259 | Fails if and only if a file meets a directory; otherwise the destination equals the source and the flag tells whether it differed |
| `DirMirror.RemoveExtra` | integrations/alga-openclaw-plugin/install.js:252-257 | Removes exactly what the source does not have and tells whether it did |
| `DirMirror.MirrorExactly` | integrations/alga-openclaw-plugin/install.js:234-259 | The mirror throws if and only if at some path a file meets a directory; otherwise the result is the source and the flag tells whether the destination was missing or differed |
| `DirMirror.MirrorIdempotent` | integrations/alga-openclaw-plugin/install.js:234-259 | The second run changes nothing and reports no change |
| `PluginConfig.EnsureAlgaConfig` | integrations/alga-openclaw-plugin/install.js:318-397 | The result is the merged configuration, and the flag is set if and only if it differs from the input |
| `PluginConfig.EnsurePlugin` | integrations/alga-openclaw-plugin/install.js:321-333 | The plugin's entry is enabled; changed if and only if it was not |
| `PluginConfig.EnsureTools` | integrations/alga-openclaw-plugin/install.js:335-351 | The missing tool names are appended to the allow-list |
| `PluginConfig.EnsureChannel` | integrations/alga-openclaw-plugin/install.js:353-394 | The channel carries the given settings and is enabled; changed if and only if it differs |
| `PluginConfig.EnsureProps` | integrations/alga-openclaw-plugin/install.js:361-394 | The channel's settings one by one, with an exact change flag |
| `PluginConfig.Append` | integrations/alga-openclaw-plugin/install.js:342-348 | Appends exactly the names that are missing |
| `PluginConfig.MergedAddsNoDuplicates` | integrations/alga-openclaw-plugin/install.js:340-348 | What is appended was not there before, and only once |
| `PluginConfig.EnsureIdempotent` | integrations/alga-openclaw-plugin/install.js:318-397 | Merging twice is merging once, from any configuration |
| `PluginConfig.EnsurePreserves` | integrations/alga-openclaw-plugin/install.js:318-397 | Nothing of others changes: no other top-level key, no other key of plugins, its entries, tools or channels; the old allow-list is a prefix of the new one, which has all tool names |
| `PluginConfig.EnsureKeepsOwn` | integrations/alga-openclaw-plugin/install.js:329-394 | The plugin's own entry and channel keep every property the script does not set, and have the given values where it does |
| `PluginConfig.UsersOnlyGrow` | integrations/alga-openclaw-plugin/install.js:369-389 | The channel's old users are a prefix of the new list, which has all given ones |
| `PluginConfig.UsersExactly` | integrations/alga-openclaw-plugin/install.js:369-389 | The new list of users is the old one followed by exactly the given ones that were missing, in order, each once |
| `PluginConfig.ToolsExactly` | integrations/alga-openclaw-plugin/install.js:340-351 | The same for the allow-list of tools |
| `PluginConfig.UsersUntouched` | integrations/alga-openclaw-plugin/install.js:369-389 | With no new users the stored value stays, whatever it is |
| `PluginConfig.FirstInstall` | integrations/alga-openclaw-plugin/install.js:318-397 | What an installation makes of the empty configuration, key by key |
| `PluginConfig.StripAlgaConfig` | integrations/alga-openclaw-plugin/install.js:399-415 | Removes the plugin's entries; throws on allow-list items that are no strings; the flag tells whether anything of the plugin's was there |
| `PluginConfig.FilterTools` | integrations/alga-openclaw-plugin/install.js:407-407 | Keeps the other tools in order, or throws |
| `PluginConfig.OtherToolsKeeps` | integrations/alga-openclaw-plugin/install.js:407-407 | Exactly the items that are no plugin tools are kept |
| `PluginConfig.StripAfterEnsure` | integrations/alga-openclaw-plugin/install.js:318-415 | On every configuration, removing after merging throws exactly if the old allow-list has an item that is no string; otherwise nothing of the plugin's is left, the other tools are there in order and nothing of others has changed |
| `PluginConfig.StripExactly` | integrations/alga-openclaw-plugin/install.js:399-415 | A removal alone, on every configuration: entry and channel go unless their value is false to JavaScript, the plugin's tools go from a list, nothing of others changes |
| `PluginConfig.StripUndoesEnsure` | integrations/alga-openclaw-plugin/install.js:318-415 | On tidy configurations, merging and removing equals removing alone |
| `PluginConfig.UndoneOnlyIfTidy` | integrations/alga-openclaw-plugin/install.js:318-415 | And only on those, unless the removal throws anyway |
| `PostMortem.PublishedProvenance` | apps/backend/api/postmortem.go:434-586 | Over every run without stale writes, a published record began as a draft, moved only along the table, and its last moves were an entry into review while confirmed blameless, an approval and, as the last change, the publication; its approver is the last one in its log |
| `PostMortemHistory.DocIsLife` | apps/backend/api/postmortem.go:209-586 | Over every run without stale writes, status, content, confirmation and approver of a record are what the requests carried out on it amount to, one after the other |
| `PostMortemHistory.ApproverAsked` | apps/backend/api/postmortem.go:563-570 | Over every such run a record's approver is the one whom the last approval request carried out on it names, if any names someone |
| `PostMortemHistory.ApprovalNames` | apps/backend/api/postmortem.go:512-570 | Approving a record in review leaves it approved by the requester |
| `PostMortemHistory.HandledAlone` | apps/backend/api/postmortem.go:209-586 | A request handled without interruption does what it says or, if it fails the checks, nothing; other incidents are not concerned |
| `PostMortemHistory.AcceptedExactly` | apps/backend/api/postmortem.go:311-486 | Which requests pass the checks |
| `PostMortem.PublishedImmutable` | apps/backend/api/postmortem.go:311-316 | Without stale writes a published record never changes again until it is deleted |
| `PostMortem.OnlyStaleWritesAlter` | apps/backend/api/postmortem.go:301-369 | In any run, a pending write alters a published record, its log aside too, if and only if it is an edit or move of that record; such a write is based on a stale read and leaves the status computed from it, an edit also the approver and content it had read |
| `PostMortem.DoublePublication` | apps/backend/store/postmortem.go:177-189 | From every approved record, the later of two publications checked before either is written sets the publication date anew |
| `PostMortem.StaleEditUnpublishes` | apps/backend/api/postmortem.go:301-369 | From every approved record, an edit checked before and written after a publication takes it back |
| `PostMortem.ConfirmationMayBeCleared` | apps/backend/api/postmortem.go:362-364 | From every record in review, an edit can clear the confirmation and the record still be published |
| `PostMortem.StillConfirmed` | apps/backend/api/postmortem.go:362-486 | Over every run without stale writes, a published record is confirmed blameless if and only if no edit withdrew the confirmation after the last entry into review |
| `PostMortem.ClearedRun` | apps/backend/api/postmortem.go:362-586 | A run from the start, request by request, that publishes a record whose confirmation was withdrawn |
| `PostMortem.AtomicIsFresh` | apps/backend/api/postmortem.go:301-369 | Requests handled one after the other make no stale writes |
| `PostMortem.ExecInv` | apps/backend/api/postmortem.go:449-586 | Every run without stale writes keeps each record's log a permitted path to its status |
| `Timeline.BuildTimeline` | apps/backend/api/postmortem_builder.go:261-350 | The rows are sorted by second, no two agree on second and description, each is the earliest entry with its line, and every entry called for by the inputs is represented |
| `Timeline.MilestonesShow` | apps/backend/api/postmortem_builder.go:264-275 | In the result every milestone that is set shows at its second, the creation if there is no start |
| `Timeline.LoggedShow` | apps/backend/api/postmortem_builder.go:277-323 | So does every log entry with a message other than postmortem_created, and every status update with a body, with its level |
| `Timeline.RowsSourced` | apps/backend/api/postmortem_builder.go:264-348 | Every row is a milestone's, or has the event, text, second and actor of a log entry, or those of a status update |
| `Timeline.Collect` | apps/backend/api/postmortem_builder.go:262-323 | Collects exactly the milestones, the non-blank log entries other than postmortem_created, and the non-blank status updates |
| `Timeline.Milestones` | apps/backend/api/postmortem_builder.go:264-275 | Exactly the set milestones, with creation standing in for a missing start |
| `Timeline.Sort` | apps/backend/api/postmortem_builder.go:325-327 | A permutation sorted by time |
| `Timeline.Deduplicate` | apps/backend/api/postmortem_builder.go:329-348 | Keeps the first entry of each line |
| `Timeline.LinesDetermined` | apps/backend/api/postmortem_builder.go:325-348 | The lines of the result do not depend on how the sort orders equal times |
| `ICalendar.EscapeRoundTrip` | apps/backend/api/oncall.go:578-587 | Escaping leaves no line break and is undone by unescaping, up to carriage returns |
| `ICalendar.EscapeIsText` | apps/backend/api/oncall.go:578-587 | Escaped text is a TEXT value of section 3.3.11 of RFC 5545: no bare separator or line break and no unfinished escape |
| `ICalendar.WriteCalendar` | apps/backend/api/oncall.go:541-569 | The document, split at CR LF and unescaped, reads back to the name, the time zone and exactly the shifts, in order |
| `ICalendar.DocumentRoundTrip` | apps/backend/api/oncall.go:541-587 | The same for the document as a value |
| `ICalendar.DocumentIsUnfolded` | apps/backend/api/oncall.go:541-569 | No line of the document reads as the continuation of the one before |
| `ICalendar.EventsReadExactly` | apps/backend/api/oncall.go:548-568 | The event read of a shift has its times, its id from schedule and start, and its user's name, or id if unknown, less carriage returns |
| `ICalendar.OneShiftLines` | apps/backend/api/oncall.go:541-569 | The document of one shift, line by line |
| `ICalendar.DistinctUids` | apps/backend/api/oncall.go:562-562 | The event ids are pairwise distinct if and only if no two shifts print the same start |
| `ICalendar.PutEvents` | apps/backend/api/oncall.go:548-568 | The loop writes every shift with its user's name; the name cache does not show |
| `ICalendar.PutEvent` | apps/backend/api/oncall.go:561-567 | The seven lines of one event |
| `ICalendar.PutHeader` | apps/backend/api/oncall.go:542-546 | The five lines of the header |
| `Recipients.CoordinationRecipients` | apps/backend/api/incident_coordination.go:240-282 | The recipients are the first candidates of all admissible agents, in order: agents of active investigations from last to first, then mentioned ones, with their first non-empty active role |
| `Recipients.RecipientSet` | apps/backend/api/incident_coordination.go:240-282 | Recipients are distinct, and exactly the trimmed agents of active investigations and mentions, less the empty and the excluded id |
| `Recipients.AllAllowed` | apps/backend/api/incident_coordination.go:242-280 | All recipients are in the collected set of allowed mention targets if and only if all admissible mentioned agents are |
| `RecipientsOrder.RoleIsFirst` | apps/backend/api/incident_coordination.go:243-253 | An agent's role is that of the first active agent role entry that gives it one |
| `RecipientsOrder.TriggerExactly` | apps/backend/api/incident_coordination.go:265-280 | A recipient with running investigations has the trigger of the last of them, any other is there for a mention |
| `RecipientsOrder.OrderExactly` | apps/backend/api/incident_coordination.go:265-280 | Agents with running investigations come first, the one whose last is latest first of all |
| `Recipients.Roles` | apps/backend/api/incident_coordination.go:243-253 | Each agent's first non-empty role among the active agent roles |
| `Recipients.Builder.Add` | apps/backend/api/incident_coordination.go:256-263 | One more candidate is offered, and taken if admissible and new |
| `Recipients.OfferInvestigators` | apps/backend/api/incident_coordination.go:265-274 | The agents of active investigations are offered, last first |
| `Recipients.OfferMentions` | apps/backend/api/incident_coordination.go:275-280 | The mentioned agents are offered in order |

## Left out

- The checks before the token loop of the SAML shape check (size, base64, round-trip validation, required fields): foreign libraries decide them.
- The Valkey stores of relay states and assertions: their operations are single commands of the server; the in-memory store is the reference.
- The SHA-256 digest in the assertion key: the model uses the text that is hashed, so hash collisions are not covered.
- Signature, audience and recipient checks of the SAML library: only its rejection of expired assertions is an assumption of `SamlFlow.AcceptedOnce`.
- `Dedup`: the capacity is an unbounded integer; a capacity whose ninefold overflows int64 is not modelled.
- The 16 MB line limit, scanner errors and JSON decoding of dispatched events of the SSE client; a stream is a sequence of characters.
- Jitter of the reconnect delay and the length of timers in the SSE protocol; a timer may fire at any time.
- `RestClient`: parsing of Retry-After and the random key; the key is an argument, and messages of different calls are told apart by it.
- `Idempotency`: an effect is counted when the handler is called; the hash in the store key, the scope, the replayed body, authentication and rate limits in front of the middleware, and the floating-point seconds of the ttl are outside; keys are told apart by their text.
- `KeyRunsOnce`: holds of a server that replays a key as soon as it has run it; what the backend's middleware gives is stated in `Idempotency`.
- `EffectAtMostOnce`: assumes that server too; `Idempotency.AlwaysOnceIff` is the statement for the middleware.
- `NilMeansOneEffect`: assumes that server too; `Idempotency.NilMeansEffect` is the statement for the middleware.
- Valkey: errors of its commands (which allow a request and deny a login), the rounding of TTL to seconds (a lock counts while any time is left) and the unlock time reported from it, and differences between the clocks of client and server; each limiter call is one step.
- `RateLimiter` and `LoginLimiter`: the counters are values in a map, not records shared by pointer; the lock makes every operation one step.
- `CopyDirIfChanged`: trees are values, so the partial effect of a run that ends in an exception, permissions and symbolic links are not modelled.
- `PluginConfig`: spreading an array or a string into the plugin's entry also copies its indices, which the model drops; writing the file with JSON.stringify, which loses named properties of arrays, and splitting the user list are outside the model.
- `PostMortem`: updated_at, which every write sets, is not part of a record; the clock counts writes; editable fields are one map; permission checks, action items, notifications and the audit log are outside.
- `Recipients`: the set of allowed mention targets is written and never read by the source; the loops of the model do not build it.
- `Timeline`: the printed timestamp is its second; RFC 3339 formatting and the builders of the other draft fields are outside.
- `ICalendar`: times are formatted strings without line breaks; shift generation and user lookup are arguments.
- Trusted-proxy client addresses, session rotation, OIDC keys, incident status transitions, playbooks, dashboards and the HTTP handlers that only check permissions and call a store: they would add easy members or depend on code outside the component.
