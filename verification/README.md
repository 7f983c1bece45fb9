# Verification model of Device Connect's coordination code

A Dafny model of the parts of Device Connect that keep state while other things happen, and of the small languages it
routes on, with proofs of what they keep. `dafny verify dfyconfig.toml` checks all of it.

| module | what it models |
|---|---|
| `Text`, `Sequences` | operations on strings and lists the code takes from its language |
| `Selector`, `SelectorProofs`, `SelectorGrammar`, `SelectorScanner` | the selector language: parser and printer, round trips, the grammar that the parser decides, the scanner's loops |
| `Matching` | globs, key filters and filters |
| `Subjects`, `Routing` | dotted subjects, their MQTT translation and matching; where `@on` handlers are called |
| `EventManager`, `EventProtocol`, `EventSafety`, `EventVerdicts` | `EventSubscriptionManager` as a class, then as a system of tasks interleaved at every await |
| `EventQueue`, `EvalSlots`, `Broadcast` | the device runtime: the drop-oldest event queue, the four predicate slots, self-electing broadcasts |
| `Presence` | the peer table of device-to-device mode |
| `Reconnect` | re-declaring Zenoh subscriptions after a reconnect |
| `Paging`, `Discovery`, `Histogram`, `Registry`, `RegistryRuns` | pages, selector-driven discovery, label histograms, the paged registry client and its cache |
| `Inbox` | the buffered inbox shared by a reader and the messaging callback |

A method of a class is a region of the source between two awaits, proved against a function on values. Four are longer:
`ListDevices` is told what others make of its cache meanwhile, `Connection.Read` and `Subscription.Read` which messages
arrive meanwhile, and `Install` with the replaying built on it runs alone, as re-declaration is stated without concurrent
subscriptions. The classes carry the source's fields, but for `EvalSlots.Evaluator`, where a semaphore and an executor
are the numbers and lists that they hold. The same functions drive state machines whose steps interleave freely, and the
theorems quantify over all their runs. Clocks, broker delivery, predicate verdicts and server replies are inputs of the
steps.

Some promises turn out to hold only under a condition, which is proved to be exact:

- `Subscription.read` describes itself as keeping every message that arrives while it runs. Its `or []` gives the reader
  a list of its own when the inbox is empty, so a message that arrives then is overwritten (`Inbox.ArrivalLost`;
  the exact condition is in `Inbox.ReadsReturnEverythingIff`).
- On legal patterns the MQTT matcher differs from a broker in three ways, and no other (`Subjects.AgreesWithBroker`). It
  lets a leading wildcard match a topic that starts with a dollar sign, so a client subscribed to `$SYS.x` and to `*.x`
  has both callbacks called (`Subjects.DollarIsMatched`). It looks for a hash sign anywhere in the pattern before it
  compares lengths, so a literal token that holds one matches longer topics; section 4.7.1 of MQTT Version 5.0 forbids
  such a filter, so no subscription should bring it about, only a direct call of the matcher. And a bare `>` is never
  translated (`Subjects.BareTailIsLost`).
- Invalidating the registry client's cache does not reach a listing under way: it is stored all the same, and a call made
  after the invalidation is answered with pages asked for before it (`RegistryRuns.StaleAfterInvalidation`, and exactly
  when in `RegistryRuns.AskedSinceInvalidationIff`).
- A predicate that finishes after its deadline can still answer true, by as much as the event loop is behind its timers
  (`EvalSlots.DeadlineHoldsIffLoopIsPunctual`).
- A demanded device lacks a fabric subscription after a failed start until a later one succeeds or its demand ends
  (`EventVerdicts.DemandIsUnmetIffStartFailed`).
- A broadcast whose rows carry no device id is taken by every device (`Broadcast.GateIsSelection`). A device id with dots
  is reached by NATS wildcards only when it is named (`Routing.NatsRoutingIsExact`), and through MQTT only when it is
  named with slashes for its dots (`Routing.MqttRoutingIsExact`).

## Model

| member | source | states |
|---|---|---|
| EventManager.NewestIndex | packages/device-connect-agent-tools/device_connect_agent_tools/mcp/event_subscriptions.py:236-238 | the scan finds the newest matching event of a ring: what it returns matches, nothing after it does |
| EventManager.EventSubscriptionManager.AddSubscriber | packages/device-connect-agent-tools/device_connect_agent_tools/mcp/event_subscriptions.py:145-148 | the client joins the device's subscribers, every other client stays listed where it was, and a start is asked for exactly when the device has no fabric subscription |
| EventManager.EventSubscriptionManager.RemoveSubscriber | packages/device-connect-agent-tools/device_connect_agent_tools/mcp/event_subscriptions.py:162-173 | the client leaves and every other stays listed where it was; the handle is released exactly when it was the last subscriber and the device is neither pinned nor waited on |
| EventManager.EventSubscriptionManager.Pin | packages/device-connect-agent-tools/device_connect_agent_tools/mcp/event_subscriptions.py:197-200 | the device is pinned and a start is asked for exactly when there is no fabric subscription |
| EventManager.EventSubscriptionManager.ScanRecent | packages/device-connect-agent-tools/device_connect_agent_tools/mcp/event_subscriptions.py:235-238 | the reversed loop returns the newest match of the ring, or none |
| EventManager.EventSubscriptionManager.AddWaiter | packages/device-connect-agent-tools/device_connect_agent_tools/mcp/event_subscriptions.py:241-242 | a queue joins the device's waiters, at the end |
| EventManager.EventSubscriptionManager.RemoveWaiter | packages/device-connect-agent-tools/device_connect_agent_tools/mcp/event_subscriptions.py:256-269 | one queue goes, an empty list of queues is dropped, and the handle is released exactly when the device is then neither subscribed to nor pinned |
| EventManager.EventSubscriptionManager.Close | packages/device-connect-agent-tools/device_connect_agent_tools/mcp/event_subscriptions.py:276-283 | the tables are emptied, rings and latest events stay, and every handle of the table is handed out |
| EventManager.EventSubscriptionManager.Announce | packages/device-connect-agent-tools/device_connect_agent_tools/mcp/event_subscriptions.py:302-305 | the latest event is set before the lock is taken |
| EventManager.EventSubscriptionManager.Record | packages/device-connect-agent-tools/device_connect_agent_tools/mcp/event_subscriptions.py:307-313 | the event ends the ring, which keeps its last 32, and exactly the queues and clients registered at that moment are read off |
| EventManager.RefusedForReason | packages/device-connect-agent-tools/device_connect_agent_tools/mcp/event_subscriptions.py:100-108 | an event is refused exactly for its name or for one parameter that is missing or different, a missing one reading as null |
| EventProtocol.RegisteredKept | packages/device-connect-agent-tools/device_connect_agent_tools/mcp/event_subscriptions.py:133-326 | every step keeps the tables tidy (no empty set of subscribers or list of queues), the waiter table in agreement with the calls under way, and the queues held by handlers known |
| EventSafety.RingKept | packages/device-connect-agent-tools/device_connect_agent_tools/mcp/event_subscriptions.py:307-311 | every step keeps each ring equal to the last min(32, n) of the n events recorded for its device |
| EventSafety.RecordMoves | packages/device-connect-agent-tools/device_connect_agent_tools/mcp/event_subscriptions.py:307-326 | recording an event appends it to the window of exactly the calls registered for its device, and adds one copy to what handlers owe each of them |
| EventSafety.DeliverMoves | packages/device-connect-agent-tools/device_connect_agent_tools/mcp/event_subscriptions.py:322-326 | a delivery takes the event off what handlers owe and appends it to exactly the queues read off; other calls are untouched |
| EventSafety.ConservedKept | packages/device-connect-agent-tools/device_connect_agent_tools/mcp/event_subscriptions.py:202-326 | every step keeps, for each call, events recorded while it was registered = taken + queued + owed by handlers in flight, as multisets |
| EventVerdicts.JudgedKept | packages/device-connect-agent-tools/device_connect_agent_tools/mcp/event_subscriptions.py:235-255 | every step keeps: a call answers with the first match it takes or with none, and when it registered no match was among the last 32 events |
| EventVerdicts.DemandKept | packages/device-connect-agent-tools/device_connect_agent_tools/mcp/event_subscriptions.py:145-178 | every step keeps fabric subscriptions in line with pins, subscribers and waiters, allowing for starts under way and failed ones |
| EventVerdicts.HandlesKept | packages/device-connect-agent-tools/device_connect_agent_tools/mcp/event_subscriptions.py:162-288 | every step keeps each handle ever started in exactly one place: in the table, released, or unsubscribed once |
| EventVerdicts.NoLostWakeUp | packages/device-connect-agent-tools/device_connect_agent_tools/mcp/event_subscriptions.py:230-274 | over every interleaving: for a call not answered with an event, a match among the 32 events before its registration does not exist, and one recorded since then while it was registered is in its queue or owed by a handler in flight |
| EventVerdicts.RingIsScanned | packages/device-connect-agent-tools/device_connect_agent_tools/mcp/event_subscriptions.py:235-242 | in every reachable state: a call answered at once got the newest match among the last 32 events recorded for its device by then, and a call that registered found none among them |
| EventVerdicts.AnswersComeFromTheWindow | packages/device-connect-agent-tools/device_connect_agent_tools/mcp/event_subscriptions.py:243-255 | an answer is the first match among the events taken, was recorded while the call was registered, and the window is conserved event for event |
| EventVerdicts.SubscriptionsFollowDemand | packages/device-connect-agent-tools/device_connect_agent_tools/mcp/event_subscriptions.py:145-269 | while the lock is free every fabric subscription is demanded, and the converse holds if no start has failed |
| EventVerdicts.DemandIsUnmetIffStartFailed | packages/device-connect-agent-tools/device_connect_agent_tools/mcp/event_subscriptions.py:145-269 | over every run, while the lock is free: a demanded device has no fabric subscription iff a start for it has failed and, since then, none for it has succeeded while it stayed demanded |
| EventVerdicts.ListedSinceSubscribed | packages/device-connect-agent-tools/device_connect_agent_tools/mcp/event_subscriptions.py:133-288 | over every run: a client is listed for a device iff the last of the run's subscribe, unsubscribe and close steps for it is a subscribe, and a device is pinned iff it was asked for since the last close |
| EventVerdicts.WaitingCallCanLeave | packages/device-connect-agent-tools/device_connect_agent_tools/mcp/event_subscriptions.py:249-274 | in every reachable state with the lock free, a waiting call can time out, leave the waiter table and answer nothing |
| EventVerdicts.FreeLockServes | packages/device-connect-agent-tools/device_connect_agent_tools/mcp/event_subscriptions.py:133-160 | with the lock free, a subscription can be made and its device gets a fabric subscription when the start succeeds; a handler waiting for the lock can record its event, which then ends the ring |
| EventVerdicts.FailedStartLeavesDemand | packages/device-connect-agent-tools/device_connect_agent_tools/mcp/event_subscriptions.py:197-200 | for every device a run ends in that case, so demand alone does not imply a subscription |
| EventVerdicts.OwedIsPut | packages/device-connect-agent-tools/device_connect_agent_tools/mcp/event_subscriptions.py:322-326 | an event owed to a call reaches its queue with one delivery, which is always possible |
| EventVerdicts.MatchIsAnswered | packages/device-connect-agent-tools/device_connect_agent_tools/mcp/event_subscriptions.py:243-255 | a waiting call with a match in its queue answers with the first match, after as many takes as there are items up to it, and nothing else changes |
| EventVerdicts.HandlesEndOnce | packages/device-connect-agent-tools/device_connect_agent_tools/mcp/event_subscriptions.py:162-288 | no handle is unsubscribed twice, none while in the table, none started is forgotten, late clean-up after `close` included |
| EventVerdicts.LatestIsRingEnd | packages/device-connect-agent-tools/device_connect_agent_tools/mcp/event_subscriptions.py:302-311 | with a first-come lock the latest event is the ring's last whenever no handler for the device waits for the lock |
| SelectorScanner.SplitTopCommas | packages/device-connect-edge/device_connect_edge/selector.py:189-216 | the depth-counting loop cuts a body at its top-level commas, with the offset of each term, or blames the bracket it cannot match |
| SelectorScanner.ParseValues | packages/device-connect-edge/device_connect_edge/selector.py:219-260 | a single value or a bracketed list of values, or the error and place the source reports |
| SelectorScanner.FindTopColon | packages/device-connect-edge/device_connect_edge/selector.py:303-314 | the first colon outside brackets of a term |
| SelectorScanner.ParseBody | packages/device-connect-edge/device_connect_edge/selector.py:274-341 | a filter body is accepted with a filter iff it spells it: it is blank, or its terms, none of them blank, are at most one name, stars, and keyed terms which are the key filters in order; the first error is the source's |
| SelectorScanner.FindClose | packages/device-connect-edge/device_connect_edge/selector.py:381-393 | the bracket-counting search for the closing parenthesis gives the recursive one's position, depth and last open bracket |
| SelectorScanner.ReadScope | packages/device-connect-edge/device_connect_edge/selector.py:347-404 | one scope, or the error and place the source reports |
| SelectorScanner.Parse | packages/device-connect-edge/device_connect_edge/selector.py:407-478 | the whole parser: a text is accepted with a tree iff it spells the tree; the tree is well formed and its printing parses back to it, and a rejected text is blamed within its length |
| SelectorGrammar.AcceptedIffSpelled | packages/device-connect-edge/device_connect_edge/selector.py:407-478 | parsing gives a tree iff the text spells it: one scope, or a device scope, a dot and a function or event scope, with white space before each of these and at the end |
| SelectorGrammar.ScopeIsSpelled | packages/device-connect-edge/device_connect_edge/selector.py:347-404 | a scope is consumed iff the text there is white space, one of the three names, a gap that begins with a blank or a tab, and a body in parentheses whose brackets balance and which spells the filter |
| SelectorGrammar.BodyIsSpelled | packages/device-connect-edge/device_connect_edge/selector.py:274-341 | a body gives a filter iff it is blank, or its top-level commas cut it into terms of which none is blank, at most one is a name, and the keyed ones have valid keys and values and are the key filters in order |
| SelectorGrammar.ValuesAreSpelled | packages/device-connect-edge/device_connect_edge/selector.py:219-260 | the right-hand side of a key gives values iff, trimmed, it is one bracket-free value, or a bracketed list of values, each trimmed and bracket-free |
| SelectorProofs.ParseUndoesPrint | packages/device-connect-edge/device_connect_edge/selector.py:189-478 | for every well-formed tree of the five scopes, parsing its canonical text gives it back, `raw` apart |
| SelectorProofs.AcceptedIsWellFormed | packages/device-connect-edge/device_connect_edge/selector.py:274-478 | whatever is accepted is a well-formed tree that remembers its text |
| SelectorProofs.ParsePrintParse | packages/device-connect-edge/device_connect_edge/selector.py:407-478 | parse, print, parse is parse, for every accepted text |
| SelectorProofs.ErrorsPointIntoText | packages/device-connect-edge/device_connect_edge/selector.py:189-478 | every error position lies between 0 and the length of the text, and the unmatched opening bracket is never the complaint |
| SelectorProofs.CloseAgrees | packages/device-connect-edge/device_connect_edge/selector.py:381-403 | the two bracket scans agree: the body up to the closing parenthesis, if its brackets balance, reads back to depth zero in the comma scan |
| SelectorProofs.SplitComplaints | packages/device-connect-edge/device_connect_edge/selector.py:196-216 | when exactly the comma scan fails, with which complaint, and where it points |
| Matching.GlobOfLiteral | packages/device-connect-edge/device_connect_edge/selector.py:48-53 | a pattern without meta characters matches itself and nothing else |
| Matching.HasMeta | packages/device-connect-edge/device_connect_edge/selector.py:51-53 | the scan for meta characters finds one exactly when there is one |
| Matching.KeyFilterMatches | packages/device-connect-edge/device_connect_edge/selector.py:105-126 | with its literal fast path, the loop accepts exactly when some value globs some member of the label |
| Matching.FilterMatches | packages/device-connect-edge/device_connect_edge/selector.py:140-153 | with its literal fast path, accepts exactly when the name globs and every key filter accepts its label |
| Matching.RefusedForReason | packages/device-connect-edge/device_connect_edge/selector.py:105-153 | an entity is refused exactly for its name, or for a key filter such that no value of a label with its key is matched by one of its patterns |
| Matching.StarBetween | packages/device-connect-edge/device_connect_edge/selector.py:105-126 | a star between two literals matches exactly the texts that begin with the one and end with the other without overlap |
| Matching.ClassTakesOne | packages/device-connect-edge/device_connect_edge/selector.py:105-126 | a class stands for one of its characters, or with an exclamation mark for one that is none of them |
| Matching.OneOfRange | packages/device-connect-edge/device_connect_edge/selector.py:105-126 | a question mark stands for one character, and a range for one between its ends |
| Subjects.ConvertTokens | packages/device-connect-edge/device_connect_edge/messaging/mqtt_adapter.py:521-533 | converting a dotted subject converts its tokens one by one: `*` to `+`, a final `>` after the first token to `#` |
| Subjects.CompareLevels | packages/device-connect-edge/device_connect_edge/messaging/mqtt_adapter.py:272-280 | the indexing loop compares level by level up to the pattern's length, a plus matching any |
| Subjects.MatchTopic | packages/device-connect-edge/device_connect_edge/messaging/mqtt_adapter.py:253-286 | with the truncations at the hash sign, the level-wise definition of the match |
| Subjects.MatchesExactly | packages/device-connect-edge/device_connect_edge/messaging/mqtt_adapter.py:253-286 | for wildcard-free subjects and all legal patterns: the converted texts match iff the subject matches the pattern's filter by tokens, or is the parent of its final `>`, or is longer than a filter one of whose literal tokens holds a hash sign; the filter is what follows a `$share` name, and a bare `>` matches nothing |
| Subjects.AgreesWithBroker | packages/device-connect-edge/device_connect_edge/messaging/mqtt_adapter.py:253-286 | the adapter agrees with what a broker reads in the filter (section 4.7 of MQTT Version 5.0, the rule on topics that start with a dollar sign included) on every subject iff the filter does not start with a wildcard, and ends in `>` or has no hash sign in it |
| Subjects.DollarIsMatched | packages/device-connect-edge/device_connect_edge/messaging/mqtt_adapter.py:272-286 | one input where they part: `$SYS.x` is matched by `*.x` |
| Subjects.ShareChangesNothing | packages/device-connect-edge/device_connect_edge/messaging/mqtt_adapter.py:254-255 | a `$share/<group>/` prefix changes no verdict |
| Subjects.BareTailIsLost | packages/device-connect-edge/device_connect_edge/messaging/mqtt_adapter.py:529-531 | a pattern that is only `>` is not translated and never matches, though it names every subject |
| Routing.SourceOfBuilt | packages/device-connect-edge/device_connect_edge/drivers/base.py:1292-1303 | reading a built event subject from its end gives the device id back, dots included |
| Routing.NatsRoutingIsExact | packages/device-connect-edge/device_connect_edge/drivers/base.py:1230-1312 | by NATS rules a handler runs on exactly the event subjects of the event asked for (any, or that one with or without `event/`) whose device is asked for: any single-token id, a single-token id that the glob matches, or the literal id itself, dotted or not |
| Routing.MqttRoutingIsExact | packages/device-connect-edge/device_connect_edge/drivers/base.py:1230-1312 | through the MQTT adapter: the same, but that a dotted id is reached only by a literal that names it with slashes for its dots |
| EventQueue.Dispatcher.EnqueueEvent | packages/device-connect-edge/device_connect_edge/device.py:1018-1029 | the event joins the queue's end; a full queue loses its oldest event first |
| EventQueue.Dispatcher.Fetch | packages/device-connect-edge/device_connect_edge/device.py:1530-1532 | the oldest event leaves the queue and is held, with the retry delay back at one second |
| EventQueue.Dispatcher.PublishFailed | packages/device-connect-edge/device_connect_edge/device.py:1538-1546 | the event stays held and the delay doubles up to thirty seconds |
| EventQueue.EventsAreConserved | packages/device-connect-edge/device_connect_edge/device.py:1018-1547 | over every run: the queue keeps to 10000, published then held then queued are enqueued events in order, every other event was dropped, and with none dropped the sequence is everything enqueued |
| EventQueue.OnlyTheOldestIsDropped | packages/device-connect-edge/device_connect_edge/device.py:1018-1029 | a step drops at most one event, only when the queue is full, and then the oldest queued; never the one held |
| EventQueue.DelayDoubles | packages/device-connect-edge/device_connect_edge/device.py:1530-1546 | over every run: the delay before the next try is one second doubled at each failure since the event was taken, at most thirty |
| EventQueue.NextIsPublished | packages/device-connect-edge/device_connect_edge/device.py:1523-1547 | from every state the dispatcher can publish the event it holds, or else the oldest one queued |
| EvalSlots.Evaluator.Enter | packages/device-connect-edge/device_connect_edge/device.py:1462-1473 | the new call's deadline is the clock plus its timeout; it holds a slot at once iff a permit is free and nobody queues, else it queues |
| EvalSlots.Evaluator.Proceed | packages/device-connect-edge/device_connect_edge/device.py:1481-1501 | a slot is given back if the deadline has passed by then, else the predicate is submitted under it |
| EvalSlots.Evaluator.ReleaseSlot | packages/device-connect-edge/device_connect_edge/device.py:1492-1501 | the completion callback gives back the slot of a finished predicate |
| EvalSlots.Evaluator.ShutDown | packages/device-connect-edge/device_connect_edge/device.py:1443-1447 | predicates that have not started are cancelled; all else stays |
| EvalSlots.DeadlineIsAfterStart | packages/device-connect-edge/device_connect_edge/device.py:1462-1510 | over every run: a call's deadline is its timeout after the time at which it began; it is turned away or times out no earlier, and a call with a slot can submit before it and only give the slot back from then on |
| EvalSlots.HolderCanBeAnswered | packages/device-connect-edge/device_connect_edge/device.py:1481-1504 | from every state, a call that holds a slot before its deadline can be answered with whatever its predicate comes to |
| EvalSlots.SlotsAreConserved | packages/device-connect-edge/device_connect_edge/device.py:1462-1510 | over every run: free permits + calls holding a slot with nothing submitted + predicates whose callback has not run = 4, and permits are never negative |
| EvalSlots.EachSlotIsReleasedOnce | packages/device-connect-edge/device_connect_edge/device.py:1465-1501 | over every run, of the acquisitions and releases that moved the permits: a call acquires at most once and is released at most once, exactly when it was turned away with a slot in hand or its own job's callback has run |
| EvalSlots.TimeoutFreesNothing | packages/device-connect-edge/device_connect_edge/device.py:1492-1510 | over every run: until the callback of the job a timed-out call left behind has run, the call has released nothing, the job is one of those holding a slot, and fewer than four slots are free or with calls |
| EvalSlots.TrueMeansFinishedTrue | packages/device-connect-edge/device_connect_edge/device.py:1450-1510 | over every run: an answer of true is of the call's own predicate, which finished true, and at most as long after the deadline as the loop is ever behind a due timer |
| EvalSlots.DeadlineHoldsIffLoopIsPunctual | packages/device-connect-edge/device_connect_edge/device.py:1450-1510 | every answer of true is of a predicate that finished by the deadline, in all runs of a loop at most so far behind its timers, iff that lateness is zero |
| EvalSlots.LateTimerLetsLateAnswerThrough | packages/device-connect-edge/device_connect_edge/device.py:1503-1504 | for every timeout and every lateness of the loop a predicate that finished that much after the deadline answers true in some run |
| Broadcast.GateIsSelection | packages/device-connect-agent-tools/device_connect_agent_tools/tools.py:851-961 | the published envelope names the one function of the rows, its targets pass exactly the selected devices (all devices if no row has an id), and `candidates` is their number |
| Broadcast.PublishedIff | packages/device-connect-agent-tools/device_connect_agent_tools/tools.py:838-961 | an envelope is published iff the policy is one of the two, the rows have one function between them and the predicate, if any, compiles; each refusal has its own cause, and the envelope carries function, predicate, time and policy |
| Broadcast.EveryFinishedTaskReplies | packages/device-connect-edge/device_connect_edge/device.py:1268-1376 | over every run: exactly the deliveries that pass the gate become tasks, in order; each finished task has exactly one reply, with its device and correlation id, so a correlation id has as many replies as finished tasks |
| Broadcast.TaskCanReply | packages/device-connect-edge/device_connect_edge/device.py:1311-1376 | from every state, a task just made that is in time can run the function and reply |
| Broadcast.DroppedForCause | packages/device-connect-edge/device_connect_edge/device.py:1311-1333 | over every run: an envelope taken up and dropped had a predicate that did not hold, or came late under `skip`; nothing else is dropped |
| Broadcast.FiredAsMeant | packages/device-connect-edge/device_connect_edge/device.py:1299-1338 | over every run: what fires is a target, its predicate held, under `skip` it was not late at the gate, and it fires at or after `fire_at` |
| Broadcast.RepliesAreBounded | packages/device-connect-edge/device_connect_edge/device.py:1337-1376 | under at-most-once delivery the replies to an envelope with targets come from distinct targets, so there are no more than targets |
| Broadcast.BroadcastIsSafe | packages/device-connect-edge/device_connect_edge/device.py:1268-1376 | end to end, for rows that all carry ids: what fires for the published envelope is a selected device, with its predicate held, not late under `skip`, not before `fire_at`; under at-most-once delivery replies come from distinct selected devices and number at most `candidates` |
| Broadcast.FiredOnTrueVerdict | packages/device-connect-edge/device_connect_edge/device.py:1311-1319 | with verdicts taken from the evaluator: what fires for an envelope with a predicate does so on a call that answered true, whose predicate finished true no later after the deadline than the loop is behind its timers |
| Presence.PresenceCollector.Handle | packages/device-connect-edge/device_connect_edge/discovery.py:276-307 | a presence message updates the table and owes a join exactly for an unknown peer; a departure removes it and owes a leave exactly for a known one; own and empty ids change nothing |
| Presence.PresenceCollector.Prune | packages/device-connect-edge/device_connect_edge/discovery.py:313-323 | one pass, through `FindStale`, removes exactly the entries older than 30 s and owes one leave for each |
| Presence.NotificationsAddUp | packages/device-connect-edge/device_connect_edge/discovery.py:276-323 | over every run: joins less leaves, delivered or owed, are 1 if the peer is in the table and 0 if not; the own id never is |
| Presence.EntriesStayYoung | packages/device-connect-edge/device_connect_edge/discovery.py:309-323 | over every run: right after a pass no entry is older than 30 s, and with passes at most 15 s apart none gets older than 45 s |
| Presence.TableIsLastHeard | packages/device-connect-edge/device_connect_edge/discovery.py:276-323 | over every run: the entry of every other peer is the time of its last message, and there is none after a departure or once a pass found it more than 30 s old |
| Presence.PassIsPossible | packages/device-connect-edge/device_connect_edge/discovery.py:309-323 | in every state a prune pass is possible, and every notification owed can be delivered |
| Reconnect.ConvertKeyIdempotent | packages/device-connect-edge/device_connect_edge/messaging/zenoh_adapter.py:968-985 | converting a converted key changes nothing, for every subject |
| Reconnect.ConvertKeyTokens | packages/device-connect-edge/device_connect_edge/messaging/zenoh_adapter.py:968-985 | converting a dotted subject keeps its tokens as levels; a final `>` becomes `**` |
| Reconnect.StoreKeysApart | packages/device-connect-edge/device_connect_edge/messaging/zenoh_adapter.py:592-593 | subscriptions to one key expression with and without the subject are stored apart, and so are those of either kind to different key expressions |
| Reconnect.ZenohAdapter.Install | packages/device-connect-edge/device_connect_edge/messaging/zenoh_adapter.py:592-678 | a subscriber is declared and, unless told not to, a queryable; if all succeed the spec is stored under the converted key with the given or a new wrapper showing its handles, else table and wrapper are untouched |
| Reconnect.ZenohAdapter.Subscribe | packages/device-connect-edge/device_connect_edge/messaging/zenoh_adapter.py:504-560 | a new subscription gets a wrapper of its own and one table entry, and the table stays keyed: stored keys convert to themselves, entries stand under their store keys, wrappers are distinct |
| Reconnect.ZenohAdapter.Unsubscribe | packages/device-connect-edge/device_connect_edge/messaging/zenoh_adapter.py:97-98 | what is stored under the wrapper's plain key is forgotten, and the table stays keyed |
| Reconnect.ZenohAdapter.Reinstall | packages/device-connect-edge/device_connect_edge/messaging/zenoh_adapter.py:704-712 | a replayed installation puts the new handles into the spec's own wrapper and key, or leaves the wrapper as it was |
| Reconnect.ZenohAdapter.ReplayOne | packages/device-connect-edge/device_connect_edge/messaging/zenoh_adapter.py:699-712 | one saved spec: its old drain task is cancelled, and it is installed onto its own wrapper or leaves that as it was; wrappers of other specs are untouched |
| Reconnect.ZenohAdapter.ReplayAll | packages/device-connect-edge/device_connect_edge/messaging/zenoh_adapter.py:697-716 | the loop replays each saved spec once, in order; wrappers of specs that failed keep what they had |
| Reconnect.ZenohAdapter.RedeclareAll | packages/device-connect-edge/device_connect_edge/messaging/zenoh_adapter.py:690-716 | from any keyed table, as every table built here is: what is left are exactly the specs whose installation succeeded, under their old keys and unchanged but for new handles, which the callers' wrappers show |
| Reconnect.InstallAllRenews | packages/device-connect-edge/device_connect_edge/messaging/zenoh_adapter.py:697-716 | the same of the replay as a function: table, keys, requests and the newness of the handles |
| Reconnect.DeclaredOncePerSpec | packages/device-connect-edge/device_connect_edge/messaging/zenoh_adapter.py:638-650 | the session sees one subscriber declaration for each spec whose subscriber does not fail, one queryable declaration for each that wants one and fails in neither, and no more |
| Inbox.Connection.OnMessage | packages/device-connect-agent-tools/device_connect_agent_tools/connection.py:573-580 | a message joins the shared list; above 1000 a new list of the last 500 takes its place |
| Inbox.Connection.Snapshot | packages/device-connect-agent-tools/device_connect_agent_tools/tools.py:1065-1070 | the reader shares the inbox list unless it is missing or empty, in which case it holds a new one |
| Inbox.Connection.Cut | packages/device-connect-agent-tools/device_connect_agent_tools/tools.py:1076-1076 | the inbox becomes what the reader's list holds beyond the snapshot |
| Inbox.Connection.Interrupt | packages/device-connect-agent-tools/device_connect_agent_tools/connection.py:573-580 | a callback of any inbox running inside a read moves the reader's window if it is for the inbox being read and still shares its list, and fills its own inbox otherwise |
| Inbox.Connection.Read | packages/device-connect-agent-tools/device_connect_agent_tools/tools.py:1064-1076 | one inbox, with messages arriving for any inbox between snapshot and cut: the read finds what was there, leaves what the aliasing lets it keep, and other inboxes take their arrivals |
| Inbox.Subscription.Read | packages/device-connect-agent-tools/device_connect_agent_tools/tools.py:1046-1079 | the inboxes one after the other, with arrivals during each: what passes the event name filter, in order, up to the limit; nothing once closed |
| Inbox.EachInboxIsReadOnce | packages/device-connect-agent-tools/device_connect_agent_tools/tools.py:1064-1076 | to each of its inboxes a read of many is one round: arrivals before its turn, the read with those during it, arrivals after |
| Inbox.AfterReadKeeps | packages/device-connect-agent-tools/device_connect_agent_tools/tools.py:1054-1076 | what a read leaves: of the arrivals, those that fit before the list is replaced; none if the inbox was empty when the read began |
| Inbox.ReceivedIsSuffix | packages/device-connect-agent-tools/device_connect_agent_tools/connection.py:573-580 | arrivals push out only the oldest: what an inbox holds is the end of all that came, all of it up to 1000, and never less than the newest 500 |
| Inbox.PassingMeans | packages/device-connect-agent-tools/device_connect_agent_tools/tools.py:1046-1079 | a read keeps, in order, exactly the messages whose event is wanted; the event name is the payload's, else its method's, each with or without `event/`, else the token after the subject's first `.event.` |
| Inbox.LimitCutsTheEnd | packages/device-connect-agent-tools/device_connect_agent_tools/tools.py:1046-1079 | a limit keeps as many messages from the front, and a negative one drops as many from the end |
| Inbox.ArrivalLost | packages/device-connect-agent-tools/device_connect_agent_tools/tools.py:1054-1057 | a message that arrives during a read of an empty inbox is neither returned nor kept, against what the method's description promises |
| Inbox.ReadsReturnEverythingIff | packages/device-connect-agent-tools/device_connect_agent_tools/tools.py:1046-1079 | over every run: reads and remainder give back everything received, in order, if and only if nothing is trimmed between reads and no read of an empty or outgrown inbox has messages arriving |
| Paging.Normalized | packages/device-connect-agent-tools/device_connect_agent_tools/tools.py:103-114 | a negative offset is zero, a limit that is not positive is the default and one above 1000 is 1000; legal requests are unchanged |
| Paging.PagesGiveWhole | packages/device-connect-agent-tools/device_connect_agent_tools/tools.py:155-160 | walking the pages gives back the list for every page size, in the fewest pages that hold it |
| Histogram.LabelHistogram.AccumulateLabel | packages/device-connect-agent-tools/device_connect_agent_tools/_normalize.py:151-164 | a string adds one observation, a list one for each member and its key to the multi-valued ones |
| Histogram.CountLabels | packages/device-connect-agent-tools/device_connect_agent_tools/_normalize.py:167-202 | the nested loops add up all observations, all keys with lists, and the keys each item declares |
| Histogram.AddAllTallies | packages/device-connect-agent-tools/device_connect_agent_tools/_normalize.py:189-198 | the table holds each observation as often as it was made, and no empty or zero entry |
| Histogram.TableCounts | packages/device-connect-agent-tools/device_connect_agent_tools/_normalize.py:151-198 | a value is counted under a key as often as the items' labels have it, once for a string and as often as a list holds it, and nothing else is in the table |
| Histogram.ListKeysMean | packages/device-connect-agent-tools/device_connect_agent_tools/_normalize.py:151-164 | the multi-valued keys are exactly those for which some item gives a list |
| Histogram.OrderDoesNotMatter | packages/device-connect-agent-tools/device_connect_agent_tools/_normalize.py:189-198 | the same items in any order give the same table |
| Histogram.UniqueCountsItems | packages/device-connect-agent-tools/device_connect_agent_tools/_normalize.py:194-196 | `unique` is the number of items that declare a key, however many values they list |
| Histogram.RankIsUnique | packages/device-connect-agent-tools/device_connect_agent_tools/tools.py:399-399 | sorting by falling count, then value, gives the same list whatever the order of the table |
| Histogram.SortedMeans | packages/device-connect-agent-tools/device_connect_agent_tools/tools.py:399-399 | the ranking's order: falling count, and for equal counts the text that ends or has the smaller character where the two first differ |
| Histogram.TotalIsMade | packages/device-connect-agent-tools/device_connect_agent_tools/_normalize.py:159-164 | the counts of a key add up to the observations made for it |
| Histogram.Format | packages/device-connect-agent-tools/device_connect_agent_tools/tools.py:393-407 | every key of the table is shown with the first entries of its one ranking, whether it has lists, and on the device axis how many devices declare it |
| Histogram.FormsAgree | packages/device-connect-agent-tools/device_connect_agent_tools/tools.py:395-519 | the pages of the per-key form put together are the one ranking, its counts add up to the observations, and the cropped form is its first entries, as many as the setting asks for between 1 and 200, with the number of the rest |
| Discovery.MatchesExact | packages/device-connect-agent-tools/device_connect_agent_tools/tools.py:304-350 | the loops pick exactly the entities the selector accepts on the devices it accepts, each once, in fleet order |
| Discovery.SelectionIsUnique | packages/device-connect-agent-tools/device_connect_agent_tools/tools.py:304-350 | there is only one such selection |
| Discovery.DeviceMatchesExact | packages/device-connect-agent-tools/device_connect_agent_tools/tools.py:305-309 | for device-only selectors the rows are exactly the devices accepted, each once, in fleet order |
| Discovery.RowsNameTheFleet | packages/device-connect-agent-tools/device_connect_agent_tools/tools.py:171-352 | there is a row for function or event `j` of device `i` iff the selector's filters accept both, and the row carries that device's id and that entity's name and labels |
| Discovery.DeviceRowsNameTheFleet | packages/device-connect-agent-tools/device_connect_agent_tools/tools.py:163-336 | the device rows carry the ids and labels of exactly the devices that the filter accepts, in fleet order |
| Discovery.ListingIsSelection | packages/device-connect-agent-tools/device_connect_agent_tools/tools.py:304-372 | what is listed and what the histogram counts is the selection: one row and one set of labels for each of its entities or devices, with schemas up to twenty and expanded up to five |
| Discovery.PickEntities | packages/device-connect-agent-tools/device_connect_agent_tools/tools.py:340-350 | one device's entities, bare names lifted to records, filtered in order |
| Discovery.Discover | packages/device-connect-agent-tools/device_connect_agent_tools/tools.py:271-372 | a parse error, an unreachable registry, or one page of the rows with the next offset, and on every page alike the number of all rows and the label histogram of all that matched |
| Discovery.ResolveFunctionTuples | packages/device-connect-agent-tools/device_connect_agent_tools/tools.py:537-568 | the walk over pages ends and returns a row for each function selected, once, in fleet order, for every fleet size; other scopes are refused |
| Registry.DoneIffComplete | packages/device-connect-edge/device_connect_edge/registry_client.py:178-214 | a listing is returned iff the replies begin with a complete one, whose cursors advance to an end, and then it is all of its pages in order |
| Registry.SlicesGiveFleet | packages/device-connect-edge/device_connect_edge/registry_client.py:178-214 | against a server that slices a list, the client gets the list; the offsets it asks for are answered with the pages there, and are as few as hold the list |
| Registry.FilterDevices | packages/device-connect-edge/device_connect_edge/registry_client.py:363-401 | the three passes keep, in order, exactly the devices that pass every filter given |
| Registry.KeptAreNotDropped | packages/device-connect-edge/device_connect_edge/registry_client.py:363-401 | a device is dropped exactly if the type or location asked for is not mentioned in the first of its two that is not empty, or a capability is the name of none of its functions, letter case aside; the rest stay in order |
| Registry.RegistryClient.LookUp | packages/device-connect-edge/device_connect_edge/registry_client.py:170-177 | up to the first request: an answer from the cache exactly when it may be used, the devices passing every filter, in order |
| Registry.CollectPages | packages/device-connect-edge/device_connect_edge/registry_client.py:185-213 | the paging loop on its own variables: the outcome and the offsets asked for are as specified, and the offsets start at zero and strictly increase, each the cursor of the reply before |
| Registry.RegistryClient.StoreListing | packages/device-connect-edge/device_connect_edge/registry_client.py:215-224 | after the last page: the cache takes an unfiltered listing and its time, and nothing else changes |
| Registry.RegistryClient.ListDevices | packages/device-connect-edge/device_connect_edge/registry_client.py:143-226 | the three in one call: an answer from the cache found, or from the pages; what others have made of the cache while the pages were awaited is kept, unless the listing is stored over it |
| RegistryRuns.CacheIsWhole | packages/device-connect-edge/device_connect_edge/registry_client.py:170-226 | over every interleaving of calls at their awaits and of invalidations: the cache holds a complete listing that one call without filters received and stored at the cache's time, not invalidated since |
| RegistryRuns.CacheIsUsedIff | packages/device-connect-edge/device_connect_edge/registry_client.py:170-226 | over every interleaving: the cache is filled by exactly the last store of a call without filters since the last invalidation, and a call is answered from it iff it has no predicate and the cache was then filled less than the time to live ago |
| RegistryRuns.FetchCanEnd | packages/device-connect-edge/device_connect_edge/registry_client.py:178-226 | a call that waits for a page ends with all it has received when that page is the last |
| RegistryRuns.AnswersAreWhole | packages/device-connect-edge/device_connect_edge/registry_client.py:170-226 | over every interleaving: an answer is a complete listing of the call's own pages, or the filtered part of a complete unfiltered one stored less than the time to live before the call looked and not invalidated in between |
| RegistryRuns.AskedSinceInvalidationIff | packages/device-connect-edge/device_connect_edge/registry_client.py:355-358 | what the cache holds, and what a call gets from it, was asked for after the last invalidation iff no invalidation fell between the look and the store of the call that filled the cache |
| RegistryRuns.StaleAfterInvalidation | packages/device-connect-edge/device_connect_edge/registry_client.py:355-358 | for any two devices a run in which a call made after an invalidation is answered with a page asked for before it |

## Left out

- Fabric messages and sessions: the parsing of event payloads and URIs, and the `resources/updated` pushes to MCP sessions. An event is a device, a name and a parameter map whose missing keys read as null.
- asyncio: tasks are split at every `await` that can suspend; cancellation inside a lock acquisition, and a queue item lost to a timer that fires in the same instant, are not modelled. Waiter time-outs may happen at any moment.
- Broadcast.Decided, Broadcast.Dispatch: on values and not in place, because the source keeps this state in locals of a coroutine; a sleep ends no earlier than its time on the one clock, the driver call is one step whose result and failure are not told apart, and a reply that fails to be published counts as attempted.
- EvalSlots.Evaluator.Proceed: the hand-over of a permit to a queued call, the worker threads and the clock are steps of the state machine and not methods; the queueing of callbacks in the event loop is only a bound on its lateness.
- EventQueue.Dispatcher.EnqueueEvent: asks that the queue is within its limit, which `EventsAreConserved` shows of every run; JSON encoding and the length of the sleeps between retries are left out, and an event whose publication fails after the broker took it is published once here.
- Matching.KeyFilterMatches: globs are `*`, `?` and bracket classes with single characters and `a-z` ranges; corner cases of `fnmatch` with stray hyphens, and the reserved `children` field, are left out.
- Subjects.AgreesWithBroker: leaves out a share name without a filter, which is no subscription (section 4.8.2 of MQTT Version 5.0). The dispatch of messages to callbacks and pending replies in the MQTT message loop is not part of this model.
- Routing.MqttRoutingIsExact: a dotted id under a tenant or an event with a hash sign in it is left open, since MQTT publishes no such topic. Lifecycle events, the best-effort device type filter, event filters that are wildcards themselves, and Zenoh's matching are left out.
- Presence.PresenceCollector.Prune: stopping the prune task, the announcer and the order in which notifications of different regions are delivered are left out.
- Reconnect.ZenohAdapter.RedeclareAll: on a fresh session with no concurrent subscribe or unsubscribe; the watchdog that opens sessions, the drain loops and the undeclaring of handles are left out.
- Inbox.Subscription.Read: is told the arrivals of each window; the parsing of payloads and races at bytecode level are left out. `ReadsReturnEverythingIff` is about unfiltered reads without a limit, for each inbox, since what a filter or a limit drops is gone.
- Discovery.Discover: the fleet does not change between pages; predicates over registry state and the layout of device summaries beyond id and labels are left out; thresholds and the number of label values shown have their default values.
- Histogram.FormsAgree: labels are strings or lists of strings; the splitting of an axis-qualified key and its error envelopes are left out.
- Registry.RegistryClient.ListDevices: the two assignments that fill or clear the cache count as one, although another thread may come between them; a request with its retries is one reply or a failure; lower-casing is that of ASCII; the list handed to the caller is the cached list itself, and what a caller does to it is not modelled.
- Commissioning, access control, credentials, telemetry, command lines, portals, adapters for language models, and the compilation of predicates: plumbing, or sources outside these components.
