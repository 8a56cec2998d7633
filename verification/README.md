# Verified model of the message path

This project models the message path of a Matrix bridge for Letta agents and for OpenCode
sessions, and the stores behind it, and proves what its parts promise over every input, every
interleaving or every run.

| part | files |
|---|---|
| Gateway stream reader: a transducer from gateway frames to stream events | `StreamReader.dfy`, `StreamReaderLaws.dfy` |
| Gateway client: one message, at most two attempts, and the non-streaming path | `GatewaySend.dfy` |
| Gateway session pool: callers, aborts, evictions and idle cleanup over one pool | `GatewayPool.dfy`, `GatewayPoolSafety.dfy`, `GatewayPoolLimit.dfy`, `GatewayClient.dfy` |
| Retry buffer: stashing, the self-starting retry task, replay by agent | `RetryBuffer.dfy`, `RetryBufferProtocol.dfy`, `RetryBufferSafety.dfy`, `RetryBufferLosses.dfy` |
| Bridge: token bucket and outbound posts | `TokenBucket.dfy`, `OutboundGate.dfy` |
| Event deduplication, of the bridge and of the client | `EventDedup.dfy` |
| Bridge: registration tables, delivery queues, sender filter, routing | `BridgeTables.dfy`, `BridgeTablesSafety.dfy`, `BridgeRegistry.dfy`, `BridgeLedger.dfy`, `BridgeDelivery.dfy`, `SenderFilter.dfy`, `BridgeRouting.dfy` |
| Identity cache in front of the identity table | `IdentityCache.dfy`, `IdentityStorage.dfy` |
| Password change in two stores, login with recovery | `PasswordSync.dfy`, `AgentAuth.dfy` |

Code that changes state is modelled by classes whose methods are proved against functions on
values (`Extend`, `Evicted`, `Newest`, `Step`, `Reroomed`, `Stored`, ...). What the source promises
is proved about those functions, as lemmas over all sequences or all runs. The concurrent
protocols are step relations in which one step is one hold of the lock or one stretch of code
without an `await`; the environment (sockets, stores, clocks, other processes) enters as
parameters or as nondeterministic steps.

Verify with `dafny verify dfyconfig.toml`.

Where a promise does not hold of the code, the code is kept, an input that fails is given, and the
exact condition is proved:

* A registration under an id that another directory has misfiles the directory index
  (`CollidingIdsMisfile`; exactly then, `RegisterKeepsIff`); ids are `directory:session`, so it
  takes a colon in a directory.
* Restoring rows leaves the tables in order exactly if no two rows have one id and every identity
  belongs to the directory of the last row that has it (`Restore`).  Two rows with colons can have
  one id (`CollidingRows`); identities stored under another domain do not belong
  (`FormerDomainMisleads`).
* An identity that changes its mxid while cached leaves the former mxid in the cache
  (`MxidChangeLeavesStale`; exactly then, `RewrittenExactIff`).
* A failed password rollback splits the two stores although the caller is told that nothing
  changed (`FailedRollbackSplits`), later rollbacks do not heal it (`NeverHealed`), and an identity
  without a password is never rolled back (`UnsetPasswordStays`).  A failed run leaves both rows
  alone exactly under the condition of `UnchangedIff`; if its rollbacks run, exactly under that of
  `AllOrNothing`.
* A login that the cooldown answers starts the cooldown anew, so a caller that asks more often
  than the cooldown is suppressed for ever, even if the homeserver would accept it
  (`StarvedRun`, for every cooldown and every length).  A login is suppressed exactly under the
  condition of `HeldIff`, and all of a stretch of logins exactly under that of `StarvedByPolling`.
* Re-stashing can silently lose messages stashed during a replay (`LosingRun`): which ones,
  `RestashLoses`; in a run exactly if some pass puts back more than fits (`NothingLostIff`).
* The pool may exceed its limit: exactly if a connection is published while it is full
  (`ExceedsIff`), by less than the number of callers that connect at once (`CapacityBound`), and
  for every limit and every such number there is a run that reaches the bound (`BoundAttained`).

Where comments in the source and its code disagree, the model follows the code:

* `_expire_stale` speaks of any messages past their TTL (src/letta/message_retry_buffer.py:249) but
  removes only an expired prefix of the buffer.  After a replay put an older message back behind a
  younger one, a stale message stays (`StaleStays`); all stale messages go exactly if no fresh one
  stands before a stale one (`ExpiresAllIff`).
* A message dropped on overflow (src/letta/message_retry_buffer.py:8) is announced to its sender
  when a stash drops it, but not when a re-stash does.
* `send_message_streaming` promises one retry on connection failure
  (src/letta/ws_gateway_client.py:95); a session that cannot be acquired at all is not retried.

## Model

| member | source | states |
|---|---|---|
| StreamReader.Reader.FlushAssistant | src/letta/gateway_stream_reader.py:57-68 | Flushing yields the buffered chunks as one assistant event with the buffered message id, exactly when there are chunks, and empties the buffer. |
| StreamReader.Reader.OnToolCall | src/letta/gateway_stream_reader.py:105-124 | A surviving tool call extends the segmentation by a cut carrying the call, or the loop error exactly when the count exceeds the limit. |
| StreamReader.Reader.OnAssistant | src/letta/gateway_stream_reader.py:126-143 | A text chunk extends the segmentation: a new bubble starts exactly when its UUID differs from the current one and text is buffered. |
| StreamReader.Reader.OnStop | src/letta/gateway_stream_reader.py:145-151 | The end of the run closes the pending bubble before the stop event and resets the UUID. |
| StreamReader.Reader.Consume | src/letta/gateway_stream_reader.py:70-153 | One turn of the loop takes exactly the item the frame contributes after deduplication, and stops exactly when the tool-call limit is passed. |
| StreamReader.StreamViaGateway | src/letta/gateway_stream_reader.py:27-153 | For every frame sequence the loop's output is the segmentation of the deduplicated, capped items, and what it still buffers is the text of the pending run. |
| StreamReader.SegmentSnoc | src/letta/gateway_stream_reader.py:57-151 | The recursive segmentation (longest uncut prefix, its bubble, the rest) can be computed one item at a time as the reader does. |
| StreamReader.ReadSnoc | src/letta/gateway_stream_reader.py:80-151 | What one more frame does to a reader that has not tripped its guard. |
| StreamReaderLaws.TextConserved | src/letta/gateway_stream_reader.py:57-68 | Yielded assistant text followed by the buffered text is exactly all assistant text received, for every frame sequence. |
| StreamReaderLaws.FlushedBefore | src/letta/gateway_stream_reader.py:105-151 | When a tool call, the loop error or a stop is yielded, all text received earlier has been yielded before it and nothing is buffered. |
| StreamReaderLaws.ReadGrows | src/letta/gateway_stream_reader.py:70-153 | What has been yielded is never taken back: the output for a prefix is a prefix of the output. |
| StreamReaderLaws.ReaderBubbles | src/letta/gateway_stream_reader.py:126-143 | The bubbles are, in order, the closed runs that partition the items; all tagged chunks with text inside one bubble share one UUID, and it is the bubble's message id. |
| StreamReaderLaws.WireContractIndependent | src/letta/gateway_stream_reader.py:80-104 | Deleting any one running snapshot or repeated terminal frame of a tool call leaves the whole output unchanged. |
| StreamReaderLaws.WireContractsAgree | src/letta/gateway_stream_reader.py:44-54 | Deleting all running snapshots and all repeated terminal frames at once leaves the whole output unchanged, so both wire contracts give the same events. |
| StreamReaderLaws.NoNoiseLeft | src/letta/gateway_stream_reader.py:44-54 | What remains has no running snapshot and no repetition: it is what a gateway of the modern contract sends. |
| StreamReaderLaws.YieldedToolCalls | src/letta/gateway_stream_reader.py:80-124 | Yielded tool calls are exactly the first terminal frame per id and all without an id, at most the limit; the loop error comes last, exactly when one more arrives. |
| GatewaySend.Try | src/letta/ws_gateway_client.py:104-198 | One attempt sends its payload once and yields exactly the frames up to the one that ends it, skipping errors of other requests. |
| GatewaySend.SendMessageStreaming | src/letta/ws_gateway_client.py:100-207 | At most two payloads; a retry only after a lost connection, a stream without result or a stale session; finished exactly with one result, last; raised without any, with the error of the last attempt. |
| GatewaySend.YieldedShape | src/letta/ws_gateway_client.py:119-176 | An attempt yields a result exactly when it ends with it, and never an error frame. |
| GatewaySend.NothingHeldBack | src/letta/gateway_stream_reader.py:70-151 | A reader run over the client that ends normally (stop or loop error) holds no text back, so its bubbles concatenate to all text consumed. |
| GatewaySend.Collect | src/letta/gateway_stream_reader.py:167-185 | The collector fails exactly if an error event occurs and otherwise returns the content of the last assistant event that has any. |
| GatewaySend.CollectedIsLastRun | src/letta/gateway_stream_reader.py:167-185 | What is collected is the text of the last closed run. |
| GatewaySend.CollectViaGateway | src/letta/gateway_stream_reader.py:156-185 | End to end, the call fails exactly if the guard tripped or the client ended without a result; otherwise no text is left over, the bubbles are all text received and the answer is the last bubble. |
| GatewaySend.LoopErrorOnStop | src/letta/gateway_stream_reader.py:110-122 | The loop error is in the output exactly if the guard tripped. |
| GatewaySend.StopsByCalls | src/letta/gateway_stream_reader.py:105-122 | The guard trips exactly when there are more logical tool calls than the limit; otherwise every frame is taken. |
| GatewayClientPool.GatewayClient.CloseEntry | src/letta/ws_gateway_client.py:456-466 | Closing marks this very entry unhealthy and nothing else. |
| GatewayClientPool.GatewayClient.Evict | src/letta/ws_gateway_client.py:433-438 | Eviction pops and closes whatever entry is under the agent's key. |
| GatewayClientPool.GatewayClient.Abort | src/letta/ws_gateway_client.py:243-268 | An abort is sent exactly when the agent has a usable session, which is then evicted. |
| GatewayClientPool.GatewayClient.EvictOldestUnlocked | src/letta/ws_gateway_client.py:440-455 | An idle entry with the least last use goes, or every entry is in use and nothing changes. |
| GatewayClientPool.GatewayClient.ReserveSection | src/letta/ws_gateway_client.py:281-316 | The first critical section refines the protocol's reservation step: reserve, make room and connect, wait, or time out. |
| GatewayClientPool.GatewayClient.InstallSection | src/letta/ws_gateway_client.py:331-364 | The second critical section refines the protocol's installation step, with the re-check for an entry that got there first. |
| GatewayClientPool.GatewayClient.Publish | src/letta/ws_gateway_client.py:352-364 | A new entry becomes the reserved pool entry of its agent. |
| GatewayClientPool.GatewayClient.Release | src/letta/ws_gateway_client.py:168-172 | The `finally` clears the reservation of the caller's own entry. |
| GatewayClientPool.GatewayClient.Touch | src/letta/ws_gateway_client.py:318-330 | A use or a successful ping only advances the entry's last use. |
| GatewayClientPool.GatewayClient.SweepIdle | src/letta/ws_gateway_client.py:475-493 | Exactly the entries unused for longer than the timeout are popped and closed; the others are left for the health check. |
| GatewayPoolSafety.NextKeeps | src/letta/ws_gateway_client.py:271-364 | Every step of callers, aborts, evictions and cleanup keeps the pool invariant and the capacity bound. |
| GatewayPoolSafety.RunKeeps | src/letta/ws_gateway_client.py:271-364 | The invariant holds in every state of every interleaving: pool entries are healthy and under their own agent, all other published entries are unhealthy, reservations and owners correspond. |
| GatewayPoolSafety.NoSharedSession | src/letta/ws_gateway_client.py:271-364 | No two callers ever own one socket, no agent has two healthy reserved sessions, and a pool entry is in use exactly when one caller owns it. |
| GatewayPoolSafety.CapacityBound | src/letta/ws_gateway_client.py:294-364 | Pool size plus connections in flight never exceeds max_connections - 1 plus the most callers that ever connected at once, so never max_connections when they connect one at a time. |
| GatewayPoolLimit.BoundAttained | src/letta/ws_gateway_client.py:294-364 | For every limit and every number C of callers connecting at once there is a run that ends with max_connections - 1 + C sessions, so from two on the limit is exceeded. |
| GatewayPoolLimit.GrowsByPublishing | src/letta/ws_gateway_client.py:352-364 | Only the publication of a new connection for an agent without a session makes the pool larger, by one. |
| GatewayPoolLimit.ExceedsIff | src/letta/ws_gateway_client.py:331-364 | In every run the pool exceeds its limit at some time if and only if at some time a connection is published while the pool is full. |
| GatewayPoolSafety.PeakIsMaximum | src/letta/ws_gateway_client.py:294-364 | That number of callers is the true maximum over the run. |
| GatewayPoolSafety.CapacityEvictionSparesOwners | src/letta/ws_gateway_client.py:440-455 | Making room never takes a healthy session from a caller. |
| GatewayPoolSafety.WaitsOnlyWhenFull | src/letta/ws_gateway_client.py:294-316 | A caller without a session of its agent to wait for is held up only while at least max_connections callers own sessions. |
| RetryBuffer.MessageRetryBuffer.Append | src/letta/message_retry_buffer.py:69-69 | The bounded deque keeps the newest elements. |
| RetryBuffer.MessageRetryBuffer.Stash | src/letta/message_retry_buffer.py:58-92 | Stashing keeps the newest fifty and hands exactly the overflowing message to the notice. |
| RetryBuffer.MessageRetryBuffer.ExpireStale | src/letta/message_retry_buffer.py:248-255 | Exactly the expired prefix is removed and returned. |
| RetryBuffer.ExpiresAllIff | src/letta/message_retry_buffer.py:248-255 | Nothing stale is left by a purge if and only if no fresh message stands before a stale one. |
| RetryBuffer.MessageRetryBuffer.TakeAll | src/letta/message_retry_buffer.py:143-146 | The replay takes the whole buffer and leaves it empty. |
| RetryBuffer.MessageRetryBuffer.Restash | src/letta/message_retry_buffer.py:231-234 | What is put back is appended in order to the bounded deque. |
| RetryBuffer.RestashLoses | src/letta/message_retry_buffer.py:231-234 | Putting r messages back onto b new ones loses exactly the oldest max(0, b + r - 50) of the new ones and none of the r. |
| RetryBuffer.GroupByAgent | src/letta/message_retry_buffer.py:148-155 | The groups are exactly the messages of each agent, in buffer order. |
| RetryBufferSafety.NextPlaces | src/letta/message_retry_buffer.py:58-255 | Every step keeps the number of places each message is in; only a stash adds one. |
| RetryBufferSafety.RunKeeps | src/letta/message_retry_buffer.py:58-255 | Conservation, one live task, wakefulness and the order of the pass hold in every interleaving. |
| RetryBufferSafety.ExactlyOnePlace | src/letta/message_retry_buffer.py:58-255 | Each stashed message is in exactly one of pending, in flight, completed, dropped with notice, expired, failed with notice, or silently overflowed at a re-stash. |
| RetryBufferSafety.NoLostWakeup | src/letta/message_retry_buffer.py:89-118 | If anything is pending or in flight, a retry loop is alive or a stasher is due to start one; never more than one loop is alive. |
| RetryBufferSafety.PassComplete | src/letta/message_retry_buffer.py:148-239 | A pass attempts each agent's messages once in buffer order whatever the interleaving of the groups; successes plus failures equal the snapshot; re-stashed messages keep their order per agent. |
| RetryBufferSafety.RestashExact | src/letta/message_retry_buffer.py:231-234 | In a run, the end of a pass loses exactly the oldest new messages that do not fit. |
| RetryBufferSafety.NothingLostSilently | src/letta/message_retry_buffer.py:143-234 | Nothing is lost silently in a run in which no stash happens during a replay. |
| RetryBufferLosses.NothingLostIff | src/letta/message_retry_buffer.py:231-234 | In every run nothing has been lost silently if and only if at the end of every pass the buffer and what is put back together were at most fifty. |
| RetryBufferLosses.LosingRun | src/letta/message_retry_buffer.py:231-234 | A concrete run: fifty stashes during the replay of a message that fails lose the oldest of the fifty without a notice. |
| RetryBufferLosses.StaleStays | src/letta/message_retry_buffer.py:231-255 | A concrete run in which a failed replay puts a message back behind a younger one and the next purge leaves it although it is stale. |
| TokenBucket.Bucket.Refill | opencode-bridge/src/rate-limiter.ts:15-21 | The refill leaves the level that follows from the elapsed time, capped, and ignores a clock that has not advanced. |
| TokenBucket.Bucket.TryConsume | opencode-bridge/src/rate-limiter.ts:23-35 | The answer and the fields are what the history of calls determines. |
| TokenBucket.ExactlyGranted | opencode-bridge/src/rate-limiter.ts:15-35 | A call is granted if and only if, for every call so far, what was granted since plus its cost stays within capacity plus the refill since. |
| TokenBucket.FoundIsLeastRoom | opencode-bridge/src/rate-limiter.ts:15-35 | The tokens found equal the least remaining allowance over all calls so far. |
| TokenBucket.WindowBound | opencode-bridge/src/rate-limiter.ts:15-35 | What is granted from any call on is at most the capacity plus the refill since that call. |
| OutboundGate.Gate.GetBucket | opencode-bridge/src/index.ts:253-260 | A room's bucket is created once, full, and no two rooms share one. |
| OutboundGate.Gate.Admit | opencode-bridge/src/index.ts:293-298 | A post asks only its own room's bucket, with cost one. |
| OutboundGate.Gate.HandleOutbound | opencode-bridge/src/index.ts:278-310 | A message is posted to the first room exactly if there is one, the client is connected, the text is no no-reply marker and the room's bucket grants it. |
| OutboundGate.PostsPerWindow | opencode-bridge/src/index.ts:89-91 | Any window of w milliseconds posts at most 20 + 5w/1000 messages per room. |
| EventDedup.AcceptedByLatest | opencode-bridge/src/index.ts:435-455 | With a clock that never goes back, only the latest acceptance of an id matters. |
| EventDedup.LookupDecides | opencode-bridge/src/index.ts:435-444 | A lookup in a table that may have forgotten what is older than the TTL gives the verdict of the full history. |
| EventDedup.RemembersStep | opencode-bridge/src/index.ts:435-455 | Recording, with any allowed forgetting, keeps the table faithful to the full history. |
| EventDedup.BridgeDedup.WasProcessed | opencode-bridge/src/index.ts:435-444 | True exactly if the id was recorded within the TTL; at most that stale record is deleted. |
| EventDedup.BridgeDedup.MarkProcessed | opencode-bridge/src/index.ts:446-455 | The id is recorded; pruning above 5000 entries removes only what is older than the TTL. |
| EventDedup.BridgeDedup.Handle | opencode-bridge/src/index.ts:473-478 | The bridge accepts an event exactly if the full-history specification does, so pruning cannot be observed. |
| EventDedup.TableDedup.IsDuplicateEvent | src/matrix/event_dedupe.py:27-65 | The eagerly purged table gives the same verdict as the same specification, hence as the bridge for the same TTL and clock. |
| EventDedup.AcceptedRepeatsFarApart | opencode-bridge/src/index.ts:94-96 | Two acceptances of one event are more than the TTL apart. |
| EventDedup.DroppedWasAccepted | opencode-bridge/src/index.ts:473-478 | A dropped event was accepted within the TTL before. |
| SenderFilter.DerivedAreBots | opencode-bridge/src/sender-filter.ts:1-4 | Every identity derived from a directory is recognised as an OpenCode identity. |
| SenderFilter.SharedIdentityIff | opencode-bridge/src/index.ts:137-144 | Two directories share an identity exactly if their sanitised names are equal or one is the other with `_v2`. |
| SenderFilter.DerivedAreLower | opencode-bridge/src/index.ts:137-144 | With a domain in lower case, derived identities are in lower case, so literal lookups find them. |
| SenderFilter.SessionsMustMention | opencode-bridge/src/sender-filter.ts:46-68 | A message of another session's identity is admitted to a room exactly if it is not the owner's own identity and mentions the owner. |
| SenderFilter.MentionedInAnyCase | opencode-bridge/src/sender-filter.ts:14-18 | An identity anywhere in the body, in any case, counts as a mention. |
| BridgeLedger.SentAtOnceKeepsIff | opencode-bridge/src/index.ts:355-385 | Sending at once keeps the order of delivery exactly when nothing waits. |
| BridgeLedger.DeliveredInOrder | opencode-bridge/src/index.ts:355-433 | What was sent is the routed items with that fate, in arrival order, each once; the queue is those that wait, in order; none waits that arrived before one sent; the rest expired or was shifted out. |
| BridgeLedger.DeliveredOnward | opencode-bridge/src/index.ts:355-405 | Sending or queueing a message takes back nothing: what was sent stays sent in its place, what expired or was shifted out stays lost. |
| BridgeLedger.FlushedOnward | opencode-bridge/src/index.ts:407-433 | Draining takes back nothing either. |
| BridgeLedger.OnwardAgain | opencode-bridge/src/index.ts:355-433 | That composes, so over any run of handlers the wire only grows and every final fate stays. |
| BridgeLedger.QueuedLastGrows | opencode-bridge/src/index.ts:387-405 | Fewer than fifty messages queued at one instant all stay in the queue when one more is. |
| BridgeLedger.ReceivesOneMore | opencode-bridge/src/index.ts:499-521 | One more delivery of an event: it is sent if the socket is open and else waits, and so do its earlier copies. |
| BridgeDelivery.OpenCodeRegistration.ForwardToOpenCode | opencode-bridge/src/index.ts:355-385 | A message is sent exactly when the socket is open. |
| BridgeDelivery.OpenCodeRegistration.Unexpired | opencode-bridge/src/index.ts:396-396 | Filtering by age leaves exactly the suffix behind the expired messages. |
| BridgeDelivery.OpenCodeRegistration.QueueMessage | opencode-bridge/src/index.ts:387-405 | What has expired is dropped, then the oldest if fifty remain, and the message is appended; every message is accounted for. |
| BridgeDelivery.OpenCodeRegistration.SendWaiting | opencode-bridge/src/index.ts:418-428 | Messages are sent oldest first as long as the socket stays open; the rest is queued again. |
| BridgeDelivery.OpenCodeRegistration.DrainMessageQueue | opencode-bridge/src/index.ts:407-433 | Draining drops what has expired, sends as many as the socket takes, oldest first, and keeps the rest in order. |
| BridgeDelivery.OpenCodeRegistration.Authenticate | opencode-bridge/src/index.ts:1099-1113 | The registration takes the socket and drains; afterwards nothing waits behind an open socket. |
| BridgeDelivery.OpenCodeRegistration.Deliver | opencode-bridge/src/index.ts:499-502 | A routed item is sent if the socket is open and else queued, exactly once; account, wire and queue are stated exactly, and nothing waits behind an open socket. |
| BridgeTables.OnePerDirectory | opencode-bridge/src/index.ts:713-732 | When the tables are in order, two live registrations have different directories. |
| BridgeTables.WithoutKeeps | opencode-bridge/src/index.ts:229-249 | Removing registrations with everything that leads to them keeps the tables in order. |
| BridgeTables.ReroomedKeeps | opencode-bridge/src/index.ts:925-936 | Replacing the rooms of a live registration keeps the tables in order. |
| BridgeTables.EnteredAsKeepsIff | opencode-bridge/src/index.ts:332-344 | Entering a registration of a new directory keeps the tables in order if and only if its id is new and its identities are those of its directory. |
| BridgeTables.EnteredDirectoryIff | opencode-bridge/src/index.ts:332-333 | Over an id that is taken, an entry leaves the other directory with a registration that is not live, and no later entry repairs that. |
| BridgeTables.FormerDomainMisleads | opencode-bridge/src/index.ts:335-340 | A row whose identities were derived under another domain puts the identity index out of order, whatever the directory. |
| BridgeTables.EnteredKeeps | opencode-bridge/src/index.ts:767-788 | Entering a new registration keeps the tables in order. |
| BridgeTables.UnregisteredKeeps | opencode-bridge/src/index.ts:861-875 | Unregistering, which deletes by key whoever owns the entry, keeps the tables in order. |
| BridgeTables.AuthenticatedKeeps | opencode-bridge/src/index.ts:1099-1109 | Authentication keeps the tables in order. |
| BridgeTables.RememberedKeeps | opencode-bridge/src/index.ts:535-544 | Remembering a registration for a mention keeps the tables in order exactly if its directory has that identity. |
| BridgeTables.RegisterKeepsIff | opencode-bridge/src/index.ts:710-788 | Registering keeps the tables in order if and only if the id, when taken, is taken by the same directory. |
| BridgeTablesSafety.IdsDetermineDirectory | opencode-bridge/src/index.ts:710-710 | Without colons in directories an id determines directory and session. |
| BridgeTablesSafety.CollidingIdsMisfile | opencode-bridge/src/index.ts:710-746 | With `a:b` / `c` and `a` / `b:c` the directory index goes wrong. |
| BridgeTablesSafety.StepKeeps | opencode-bridge/src/index.ts:714-788 | Every handler keeps the tables in order when directories have no colon. |
| BridgeTablesSafety.RunKeeps | opencode-bridge/src/index.ts:229-1109 | Over every sequence of handlers: at most one live registration per directory, the directory index is exactly the inverse, a room leads to a live registration that lists it, an identity to a live one whose derived identities include it. |
| BridgeRegistry.Registry.Forget | opencode-bridge/src/index.ts:717-730 | Deleting a registration's owned entries leaves nothing that leads to it, and closes its socket. |
| BridgeRegistry.Registry.ForgetAll | opencode-bridge/src/index.ts:229-249 | The loop removes exactly the given registrations and closes exactly their sockets. |
| BridgeRegistry.Registry.CleanupStale | opencode-bridge/src/index.ts:229-249 | Exactly the registrations not seen for fifteen minutes go. |
| BridgeRegistry.Registry.Register | opencode-bridge/src/index.ts:696-812 | The others of the directory go and their sockets close; a registration under the id is kept with the new rooms, else a new one is entered; a request without session or directory changes nothing. |
| BridgeRegistry.Registry.Unregister | opencode-bridge/src/index.ts:855-893 | The registration and all entries under its keys go; the answer says whether there was one. |
| BridgeRegistry.Registry.UpdateRooms | opencode-bridge/src/index.ts:911-954 | The registration of the directory, if any, lists exactly the new rooms, which lead to it. |
| BridgeRegistry.Registry.Restore | opencode-bridge/src/index.ts:312-353 | The stored rows, the last one with each id, become exactly the live registrations, with their rooms and times; the directory index is in order if and only if no ids collide, and all tables if and only if, besides, every identity belongs to the directory of the last row that has it. |
| BridgeRegistry.CollidingRows | opencode-bridge/src/index.ts:318-319 | The rows `a:b` / `c` and `a` / `b:c` have different directories and one id. |
| BridgeRegistry.GenuineRightful | opencode-bridge/src/index.ts:335-340 | Rows whose stored identities are all those of their directories meet that condition. |
| BridgeRegistry.Registry.Find | opencode-bridge/src/index.ts:1084-1097 | An authentication finds a registration by id, else by directory, else by a part of an id, and none only if there is none. |
| BridgeRegistry.Registry.Authenticate | opencode-bridge/src/index.ts:1082-1117 | The found registration takes the socket, leads its rooms and directory, closes a replaced socket and drains its queue; every other registration is unchanged. |
| BridgeRegistry.Registry.Connect | opencode-bridge/src/index.ts:1060-1069 | A new connection's socket is open and breaks nothing, since it is nobody's yet. |
| BridgeRegistry.Registry.SocketClosed | opencode-bridge/src/index.ts:1127-1139 | A closed socket degrades the registration exactly if it is still its socket; queue and tables are untouched. |
| BridgeRegistry.Registry.DeliversInOrder | opencode-bridge/src/index.ts:355-433 | In every state of the registry the order and the account of delivery hold for every live registration, and something waits only while the socket is not open. |
| BridgeRegistry.Registry.Deliver | opencode-bridge/src/index.ts:499-502 | Delivery to a live registration sends if its socket is open and else queues, and changes nothing else. |
| BridgeRegistry.Registry.FindByIdentity | opencode-bridge/src/index.ts:525-541 | The scan finds a live registration with the identity if there is one, with an open socket if one of them has that. |
| BridgeRegistry.Registry.RouteMention | opencode-bridge/src/index.ts:511-549 | A mention is delivered exactly once to a live registration with that identity, sent if its socket is open and else queued, if and only if one exists; the index remembers it and no other registration changes. |
| BridgeRouting.Router.RouteToOwner | opencode-bridge/src/index.ts:484-505 | In a registered room the event goes exactly once to the room's live registration, sent if its socket is open and else waiting, if and only if it is admitted; no other registration changes. |
| BridgeRouting.Router.RouteMentions | opencode-bridge/src/index.ts:507-549 | Each mention other than the sender's goes once to a live registration with it, if and only if one exists; each copy is sent if the socket is open and else waits, and registrations without a mention are unchanged. |
| BridgeRouting.Router.HandleMatrixMessage | opencode-bridge/src/index.ts:457-550 | Routing is sound and complete: what every registration receives from an event, and whether it is sent or waits, is exactly what filter, deduplication, admission, mentions and sockets say. |
| IdentityCache.StoredCoherentIff | src/core/identity_storage.py:55-62 | Caching an identity keeps the two caches inverse to each other exactly if its id keeps its mxid and the mxid is not cached for another id. |
| IdentityCache.RewrittenExact | src/core/identity_storage.py:146-160 | Updating a row without changing its mxid keeps the cache a mirror of the table. |
| IdentityCache.TableRewritten | src/models/identity.py:26-26 | The table takes a rewritten row exactly if no other row has its mxid. |
| IdentityCache.RewrittenExactIff | src/core/identity_storage.py:146-151 | Caching a changed row keeps the mirror if and only if the id was not cached or keeps its mxid; otherwise the former mxid stays cached although no row has it. |
| IdentityCache.MxidChangeLeavesStale | src/core/identity_storage.py:146-151 | A concrete change of mxid after which the lookup by the former mxid is wrong. |
| IdentityCache.AddedExact | src/core/identity_storage.py:121-144 | Creating a row keeps the mirror. |
| IdentityCache.DroppedExact | src/core/identity_storage.py:162-181 | Removing the entry of a row that changes or goes keeps the mirror. |
| IdentityStorage.IdentityStorageService.RemoveCacheEntry | src/core/identity_storage.py:46-52 | All four maps forget the entry and its mxid. |
| IdentityStorage.IdentityStorageService.PruneCache | src/core/identity_storage.py:64-80 | Afterwards the cache fits, has nothing expired, and what went though fresh is no younger than what stayed; the caches stay inverse. |
| IdentityStorage.IdentityStorageService.SetCacheEntry | src/core/identity_storage.py:54-62 | Caching stores under id and mxid with one timestamp and prunes. |
| IdentityStorage.IdentityStorageService.Get | src/core/identity_storage.py:87-96 | Whatever other processes write, the value was the table's for that id within the last TTL; if all writes go through the service it is the table's now. |
| IdentityStorage.IdentityStorageService.GetByMxid | src/core/identity_storage.py:98-109 | If all writes go through the service, the answer is the row with that mxid, or none exists; otherwise a fresh cache hit is what the table said, within the last TTL, of an id whose row had the mxid within the last TTL, and a miss is what the table says of the mxid now. |
| IdentityStorage.IdentityStorageService.Create | src/core/identity_storage.py:121-144 | A row is added exactly if id and mxid are new; the cache stays a mirror. |
| IdentityStorage.IdentityStorageService.Update | src/core/identity_storage.py:146-160 | The row is rewritten if there is one, and refused without effect exactly if another row has the mxid; the cache stays a mirror if the mxid is kept. |
| IdentityStorage.IdentityStorageService.Deactivate | src/core/identity_storage.py:162-170 | The row is marked inactive, its entry goes, the cache stays a mirror. |
| IdentityStorage.IdentityStorageService.Delete | src/core/identity_storage.py:172-181 | Row and entry go, the cache stays a mirror. |
| IdentityStorage.IdentityStorageService.ClearCache | src/core/identity_storage.py:183-187 | The empty cache mirrors any table. |
| PasswordSync.PasswordStores.TryWrite | src/core/password_consistency.py:38-67 | The attempt writes mapping then identity and stops at the first call that raises. |
| PasswordSync.PasswordStores.Rollback | src/core/password_consistency.py:76-91 | What was read is written back, mapping first, until a call raises. |
| PasswordSync.PasswordStores.SyncAgentPassword | src/core/password_consistency.py:35-103 | True exactly if some attempt runs to its end, and then both stores hold the new password and nothing else changed; on False each store holds the new password exactly if an attempt left it there. |
| PasswordSync.AllOrNothing | src/core/password_consistency.py:35-103 | If all attempts fail and their rollbacks run, the mapping is unchanged, and the identity is if and only if it had a password or no update raised after its effect. |
| PasswordSync.UnchangedIff | src/core/password_consistency.py:68-98 | A failed run leaves both rows alone if and only if, for mapping and identity each, no attempt left the new password behind or it was the password already. |
| PasswordSync.IdentitySpared | src/core/password_consistency.py:63-67 | When calls that raise have no effect, a failed run leaves nothing in the identity. |
| PasswordSync.UnsetPasswordStays | src/core/password_consistency.py:90-91 | A concrete failed run whose rollback works and which still gives an identity without a password the new one. |
| PasswordSync.NeverHealed | src/core/password_consistency.py:36-50 | A lost rollback is not healed by later attempts. |
| PasswordSync.FailedRollbackSplits | src/core/password_consistency.py:92-98 | A concrete run that reports failure and leaves the stores with different passwords. |
| AgentAuth.RoomAgentAuth.AgentLoginSuppressed | src/core/room_agent_auth.py:84-88 | A login is suppressed exactly if it repeats the last password before the retry time. |
| AgentAuth.RoomAgentAuth.RecordFailure | src/core/room_agent_auth.py:90-103 | All five records of the agent are updated and no other agent's. |
| AgentAuth.RoomAgentAuth.RecordSuccess | src/core/room_agent_auth.py:115-121 | The agent's records are reset and no other agent's. |
| AgentAuth.RoomAgentAuth.TryRound | src/core/room_agent_auth.py:211-230 | A round gives a token exactly if the reset is accepted, the stores are changed and the login succeeds; then homeserver, mapping and identity hold its password. |
| AgentAuth.RoomAgentAuth.Recover | src/core/room_agent_auth.py:210-230 | A token comes exactly from the first round that recovers, and then homeserver, mapping and identity hold its password; stores that agreed still agree if no round loses a rollback. |
| AgentAuth.RoomAgentAuth.LoginWithRecovery | src/core/room_agent_auth.py:163-239 | The course of a login (suppressed, logged in, given up, recovered, lost), what it does to homeserver and stores, and the records it leaves. |
| AgentAuth.HeldIff | src/core/room_agent_auth.py:84-121 | Over any sequence of logins, one is suppressed if and only if the one before failed with the same password and was recorded less than the cooldown ago. |
| AgentAuth.StarvedByPolling | src/core/room_agent_auth.py:84-103 | After a failed login, all logins of a stretch are suppressed if and only if all repeat its password and each comes less than the cooldown after the one before, however long the stretch. |
| AgentAuth.StarvedRun | src/core/room_agent_auth.py:84-103 | For every cooldown and every length there is a run in which all logins after the first are suppressed although the homeserver would accept each. |
| AgentAuth.PollingCounts | src/core/room_agent_auth.py:98-99 | Over any sequence of logins, each of a stretch of suppressed ones counts as one more failure. |

## Left out

- Sockets, HTTP, SQL, JSON and logging: ping, connect, send, probe, login, reset and store calls are outcomes chosen by the environment.
- Task cancellation and generator disposal, which can leak a reservation of the pool.
- Clocks: a call reads its clock once, where the source may read it again within the same stretch of code; clocks are integers and do not go back (a bucket ignores a clock that does).
- Frames carry their fields as values; parsing of JSON, the default texts of error events and the wording of the loop error are constants or parameters.
- The choice among equally old entries (least last use, least timestamp) follows the iteration order of a dictionary in the source; the model allows any.
- Retry buffer: `attempt_count`, the notices themselves and the order among agents within a pass.
- Gateway pool: the abort and close frames sent to a dying socket, and the health check's pings, which appear only as the eviction that follows a failure.
- Statistics of rate-limited messages.
- `toLowerCase` on characters outside ASCII.
- The extraction of mentions from body and pills, a regular expression: the mentions of an event are a parameter, distinct because the source collects them in a set.
- Rows of the registration table are taken to have distinct directories, the key of that table.
- BridgeDelivery.OpenCodeRegistration.ForwardToOpenCode: does not model a `send` that raises on an open socket, because delivery order then fails (`SentAtOnceKeepsIff` says exactly when it holds).
- BridgeRegistry.Registry.Authenticate: does not model the reply that is sent to the socket before the queue is drained.
- Heartbeats and pongs, which only advance `lastSeen`, and `/notify`, which delivers to the registration of a directory like a routed message.
- The queue of a registration that is replaced by one with another session; it is discarded with the registration.
- Starting the Matrix client and loading the agent mappings, with their backoff.
- Persistence of registrations on register, unregister and update-rooms, which happens after the tables have changed.
- Negative cache limits, and the lists by type or all, which bypass the cache.
- PasswordSync.PasswordStores.SyncAgentPassword: does not model rows that are deleted or created while it runs, nor a stale cached identity; the identity read is the store's.
- AgentAuth.RoomAgentAuth.LoginWithRecovery: does not model network errors that raise out of the login; service users' logins are not modelled.
