# Wireless bridge: model and proofs

This project models the MQTT wireless bridge daemon and proves what its
components promise. Times are integers in milliseconds, 32-bit counters wrap
explicitly, and every sequence of events is a run unless a lemma says otherwise.

* `CyclicTimers.dfy`, `Executor.dfy`: the cyclic-timer protocol of the executor.
  A registered id owns a timer; each asynchronous wait not yet answered by a
  handler run is a token. Cancelling or destroying a timer, or moving its expiry,
  answers an armed wait as aborted, and the handler ignores the error code. Ids
  come from `rand()` and may collide.
* `Retry.dfy`: the automaton shared by connection manager and watchdog (wrapping
  attempt counter, deadline, bound). `Watchdog.dfy` adds the device status,
  `ConnMan.dfy` the clients of the connection manager.
* `Text.dfy`, `DeviceTable.dfy`, `Routing.dfy`: message fields, `std::stoi`,
  value mappings, and what one message publishes.
* `Sweep.dfy`: a loop over all entries of an unordered map, as the watchdog and the
  connection handler run it.
* `BridgeModel.dfy`, `StatusTopics.dfy`, `Bridge.dfy`: the whole bridge over runs of
  watchdog ticks and messages, its projection onto one device, what the readers of a
  status topic see, and the bridge object.
* `Pacing.dfy`: the watchdog as a cyclic task of the executor.
* `Mqtt.dfy`: the topic list against the broker's session.
* `OrderedMap.dfy`, `Registry.dfy`, `ComponentManager.dfy`, `Shipped.dfy`: component
  loading, dependency resolution, start-up, and the shipped component list.
* `ErrorPipeline.dfy`, `Launcher.dfy`: error queue, FinalHaven and exit loop.

Classes carry the names and fields of the C++ classes; each method is proved
against a function of the old state, and the theorems are lemmas about these
functions over whole runs. What the functions themselves mean is stated beside them
in the source's own terms: configured seconds, statuses, report levels, mapped texts.
Every lemma switches automatic induction off: inductions are written out, and a lemma
with an empty body follows from the definitions alone.
`dafny verify dfyconfig.toml` checks everything.

Findings, each with a lemma:

* A `rand()` collision leaves the old id with two tokens; from then on its handler
  can run without the clock moving, posting its task each time
  (`CollisionMakesTwoTokens`, `CollisionSpins`). A run is free of this exactly when
  every id it draws is fresh (`OneTokenIffFresh`). A stale completion is harmless
  until its id is drawn again (`StaleCompletionUnseen`, `RedrawRevives`).
* Between the unlocked cancel loop and the clearing of the items, a cancelled wait
  posts its task ahead of time (`CancelledTimerPostsEarly`). Posts are on time exactly
  when no handler run took an aborted completion ahead of the deadline, which the
  ignored error code would have told (`OnTimeExact`).
* The `break` after a mapped channel leaves the channel loop, so later channels are
  skipped; harmless exactly when a mapped channel comes last (`BreakHarmlessIff`,
  `OutputBreakHarmlessIff`).
* A message on which `stoi` throws resets the watchdog counter but sends no "ok", so
  an "error" status can outlive the silence it stands for: empty fields to a device
  with a mapped channel do it (`BlankLeavesError`, `ErrorOutlivesSilence`,
  `PeriodicSilence`).
* `subscribeTopic` interrupted by a successful connect between its two halves loses
  the new topic until the next connect, with a kept session only if it began while
  disconnected (`InterruptedSubscribe`).
* Components start in name order: dependencies are started first exactly when their
  names are smaller (`StartOrderSoundIff`), and the shipped configuration starts the
  bridge before the executor and the MQTT connection it is bound to
  (`BridgeStartsFirst`).

## Model

| member | source | states |
|---|---|---|
| CyclicTimers.TokenConservation | src/system/components/executor/src/CExecutor.cpp:58-144 | on every event and for every id the number of outstanding tokens changes only by one per registration and minus one per handler run of a dead id, whatever ids are drawn |
| CyclicTimers.OneToken | src/system/components/executor/src/CExecutor.cpp:91-131 | if every drawn id is neither live nor carried by a completion, then in every reachable state each live id has exactly one token and a dead one at most one |
| CyclicTimers.OneTokenNeedsFreshness | src/system/components/executor/src/CExecutor.cpp:121-130 | a registration keeps the one-token invariant if and only if its id was fresh |
| CyclicTimers.OneTokenIffFresh | src/system/components/executor/src/CExecutor.cpp:91-131 | a run keeps one token per live id at every moment if and only if every id it draws is fresh |
| CyclicTimers.CollisionMakesTwoTokens | src/system/components/executor/src/CExecutor.cpp:123-129 | a colliding draw keeps the old item and gives its id a second token |
| CyclicTimers.CollisionSpins | src/system/components/executor/src/CExecutor.cpp:99-119 | an id with two tokens can post its task any number of times at one clock reading and keeps both tokens |
| CyclicTimers.NoDrift | src/system/components/executor/src/CExecutor.cpp:93-119 | on every run, after k posts the deadline of a live id is birth + (k+1)*period |
| CyclicTimers.OnTimeExact | src/system/components/executor/src/CExecutor.cpp:60-119 | on every fresh run, shutdown included, all posts of the current life are at or after birth + (j+1)*period if and only if no handler run of that life took an aborted completion ahead of the deadline |
| CyclicTimers.PostsOrdered | src/system/components/executor/src/CExecutor.cpp:101-118 | on every run the posts of a life are in clock order, after its birth and not in the future |
| CyclicTimers.NeverEarly | src/system/components/executor/src/CExecutor.cpp:101-118 | on fresh runs before shutdown, post j is not before birth + (j+1)*period and posts are in clock order |
| CyclicTimers.PostRate | src/system/components/executor/src/CExecutor.cpp:101-118 | on fresh runs without such a premature handler run, at any time t at most floor((t - birth)/period) posts were made, however late the handlers ran |
| CyclicTimers.PostCountWhenCaughtUp | src/system/components/executor/src/CExecutor.cpp:101-118 | and on such a run, whenever the next deadline lies ahead, exactly floor((now - birth)/period) posts were made |
| CyclicTimers.CancelledTimerPostsEarly | src/system/components/executor/src/CExecutor.cpp:60-75 | after the cancel loop and before the items are cleared the handler of any waiting id can run prematurely, and then posts |
| CyclicTimers.RegistrationArms | src/system/components/executor/src/CExecutor.cpp:91-130 | a fresh registration starts one timer, one period from now, with its period and task, and touches nothing else |
| CyclicTimers.CycleTurns | src/system/components/executor/src/CExecutor.cpp:99-119 | once the deadline of an armed id has passed, its wait can complete and the handler posts the id's own task, moves the deadline by one period and waits again |
| CyclicTimers.OthersUntouched | src/system/components/executor/src/CExecutor.cpp:91-144 | an event about one id leaves item and completions of every other id alone |
| CyclicTimers.LiveStaysLive | src/system/components/executor/src/CExecutor.cpp:91-144 | on every run without a stop of the id and without clearing, a live id stays live with its period and task, whatever happens to other ids |
| CyclicTimers.GoneStaysGone | src/system/components/executor/src/CExecutor.cpp:101-118 | an id without an item is never posted again unless redrawn, its completions only drain, its queued jobs are run or kept |
| CyclicTimers.StaleCompletionUnseen | src/system/components/executor/src/CExecutor.cpp:103-104 | until the id is drawn again, whether the handler of a completion of a dead id has run makes no difference to clock, items, jobs, posts and the completions of all other ids on any later run |
| CyclicTimers.RedrawRevives | src/system/components/executor/src/CExecutor.cpp:99-130 | once the id is drawn again it does: a stale completion still queued posts the new registration's task without the clock moving, a handled one posts nothing |
| CyclicTimers.StopIsFinal | src/system/components/executor/src/CExecutor.cpp:133-144 | after stop_cyclic, as long as the id is not drawn again, no handler posts the task and it runs at most as often as it was queued |
| CyclicTimers.ClearIsFinal | src/system/components/executor/src/CExecutor.cpp:71-75 | the same for every id not drawn again once shutdown has cleared the items |
| CyclicTimers.JobConservation | src/system/components/executor/src/CExecutor.cpp:86-89 | every posted function object was run exactly once or is still queued |
| CyclicTimers.StoppedServiceIsSilent | src/system/components/executor/src/CExecutor.cpp:77-83 | once the io_service is stopped no job runs and no handler posts |
| Executor.CExecutor.Execute | src/system/components/executor/src/CExecutor.cpp:86-89 | one job is queued, nothing else changes |
| Executor.CExecutor.ExecuteCyclic | src/system/components/executor/src/CExecutor.cpp:91-131 | the whole new state for a fresh and for a colliding draw; the drawn id is returned |
| Executor.CExecutor.OnTimeout | src/system/components/executor/src/CExecutor.cpp:99-119 | the handler consumes its completion and, for a live id, posts, moves the expiry by one period and waits again |
| Executor.CExecutor.StopCyclic | src/system/components/executor/src/CExecutor.cpp:133-144 | the id is gone and its armed wait answered as aborted; every other id keeps its item and its completions, and clock, jobs and service stay |
| Executor.CExecutor.CancelTimers | src/system/components/executor/src/CExecutor.cpp:60-70 | the loop disarms every timer and keeps keys, expiry, period and task; every armed wait becomes one aborted completion; clearing afterwards gives what clearing at once would give |
| Executor.CExecutor.StopExecution | src/system/components/executor/src/CExecutor.cpp:58-84 | no item is left, every armed wait became one aborted completion, the service is stopped |
| Retry.DeadlineExact | src/system/components/connman/src/CConnMan.cpp:75-111 | the deadline moves only on an attempt, by the wait, and on a contact that brings one; all else keeps it |
| Retry.CounterClosedForm | src/bridge/bridge/src/CWirelessBridge.cpp:156-174 | without a contact the counter is (start + number of expired checks) mod 2^32 on any clock |
| Retry.ActionClosedForm | src/bridge/bridge/src/CWirelessBridge.cpp:159-173 | the k-th expired check attempts, reports or is silent according to k mod 2^32 below, equal to or above the bound |
| Retry.ExhaustionPeriod | src/bridge/bridge/src/CWirelessBridge.cpp:168 | successive exhaustion reports without a contact are exactly 2^32 expired checks apart |
| Retry.BudgetClosedForm | src/system/components/connman/src/CConnMan.cpp:78-102 | exact numbers of attempts and reports for any number of expired checks, wrap-arounds included |
| Retry.BudgetBeforeWrap | src/system/components/connman/src/CConnMan.cpp:78-102 | before the wrap: min(expired, bound) attempts, one report if more expire, no attempt after it |
| Retry.AttemptsSpaced | src/system/components/connman/src/CConnMan.cpp:78-90 | any two attempts are more than the wait apart for any clock readings and resets that keep the deadline |
| Retry.AttemptRate | src/system/components/connman/src/CConnMan.cpp:78-90 | a window of W ms holds at most floor(W/(wait+1))+1 attempts |
| Retry.NotReportedEarly | src/bridge/bridge/src/CWirelessBridge.cpp:156-172 | no report before t0 + (N+1)*(T+1), on any clock |
| Retry.ReportedInTime | src/bridge/bridge/src/CWirelessBridge.cpp:145-172 | with checks at most P apart there is a report by t0 + (N+1)*(T+P) |
| Watchdog.CouplingStep | src/bridge/bridge/src/CWirelessBridge.cpp:156-172 | from a coupled state, status is "error" iff the counter exceeds the bound also afterwards, if and only if the signal neither wraps the counter nor throws while "error" is shown |
| Watchdog.CouplingExact | src/bridge/bridge/src/CWirelessBridge.cpp:141-233 | the same over every interleaving of checks and messages, at every point of the run |
| Watchdog.SilentDeviceMarked | src/bridge/bridge/src/CWirelessBridge.cpp:145-172 | status unchanged before t0+(N+1)*(T+1) and "error" from t0+(N+1)*(T+P) on |
| Text.SplitFields | src/bridge/bridge/src/CWirelessBridge.cpp:270-283 | joining the fields gives the message back, fields are free of separators, there is one more field than separators |
| Text.SplitOfJoin | src/bridge/bridge/src/CWirelessBridge.cpp:270-283 | splitting the join of any non-empty separator-free list returns the list |
| Text.StoiDecimal | src/bridge/bridge/src/CWirelessBridge.cpp:216 | a signed decimal after white space and before any non-digit is read back exactly when it is an int |
| Text.StoiExact | src/bridge/bridge/src/CWirelessBridge.cpp:216 | every text is white space, at most one sign, digits and a rest; it converts to the signed digits if there are any and they make an int, and throws otherwise |
| Text.StoiNoDigit | src/bridge/bridge/src/CWirelessBridge.cpp:216 | without a digit after white space and sign the conversion throws |
| Text.DecimalCanonical | src/bridge/bridge/src/CWirelessBridge.cpp:250-262 | a printed number has no leading zero |
| Text.CommandRoundTrip | src/bridge/bridge/src/CWirelessBridge.cpp:250-262 | number and payload of a control message can be read back for every number and string |
| Text.CommandInjective | src/bridge/bridge/src/CWirelessBridge.cpp:250-262 | different commands are different messages |
| DeviceTable.LookupFirst | src/bridge/bridge/src/CDeviceConfig.cpp:138-154 | the lookup returns the first row with the name, and nothing exactly when no row has it |
| DeviceTable.LookupAgrees | src/bridge/bridge/src/CDeviceConfig.cpp:138-154 | with distinct names the lookup by a row's name returns that row |
| DeviceTable.MappingRoundTrip | src/bridge/bridge/src/CWirelessBridge.cpp:214-221 | with distinct values text to value to text is the identity, with distinct texts too also value to text to value |
| Routing.InputsExact | src/bridge/bridge/src/CWirelessBridge.cpp:209-228 | with all numbers in range, the input loop publishes the raw fields of the channels before the first mapped one, then what that one does, and nothing else |
| Routing.InputsPublished | src/bridge/bridge/src/CWirelessBridge.cpp:209-228 | spelled out: the raw fields before the first mapped channel, then the text at the first place of its mapping with its field's value, or nothing, or the throw |
| Routing.InputsThroughFirstMapped | src/bridge/bridge/src/CWirelessBridge.cpp:209-228 | the loop equals the loop without break over the channels through the first mapped one |
| Routing.InputsOutcomeExact | src/bridge/bridge/src/CWirelessBridge.cpp:209-228 | with all numbers in range the loop ends by an exception if and only if stoi throws on the field of the first mapped channel |
| Routing.BreakHarmlessIff | src/bridge/bridge/src/CWirelessBridge.cpp:212-223 | with all numbers in range, every channel is processed on every message string with one field a channel iff no mapped channel precedes another |
| Routing.OutputsThroughFirstMapped | src/bridge/bridge/src/CWirelessBridge.cpp:238-265 | the output loop answers the channels on the topic through the first mapped one |
| Routing.OutputBreakHarmlessIff | src/bridge/bridge/src/CWirelessBridge.cpp:238-265 | every channel on the topic answers every message iff no mapped one precedes another of them |
| Routing.OutputsExact | src/bridge/bridge/src/CWirelessBridge.cpp:238-265 | spelled out: without an output topic nothing; else number and message for each channel on the topic before the first mapped one there, then that one's number with the first value mapped to the message |
| Routing.ControlDecodes | src/bridge/bridge/src/CWirelessBridge.cpp:244-263 | a control message decodes to the channel number and, through a mapping with distinct values, to the original text |
| BridgeModel.MessageFrame | src/bridge/bridge/src/CWirelessBridge.cpp:194-204 | a message changes only blocks of devices whose input topic equals its topic and keeps the set of devices |
| BridgeModel.ThrowSkipsRest | src/bridge/bridge/src/CWirelessBridge.cpp:194-266 | once the fields of a reached device throw, the rows after it do nothing; the device itself is rearmed first |
| BridgeModel.FieldsPublished | src/bridge/bridge/src/CWirelessBridge.cpp:207-229 | what a message with a field for every channel publishes, down to the mapped text, by the first mapped channel and the first place of its mapping with the value |
| BridgeModel.PlainFieldsPublished | src/bridge/bridge/src/CWirelessBridge.cpp:207-229 | without mapped channels every field goes out as it is, and none if their number differs |
| BridgeModel.CreatedBlocksAgree | src/bridge/bridge/src/CWirelessBridge.cpp:60-73 | the blocks are exactly those of the configured names; with distinct names each has counter 0 and the deadline its row's seconds ahead, and the lookup returns that row |
| BridgeModel.CreatedByFirst | src/bridge/bridge/src/CWirelessBridge.cpp:60-73 | of several rows with one name the first makes the block, with its own seconds |
| BridgeModel.DeviceRefinement | src/bridge/bridge/src/CWirelessBridge.cpp:141-268 | over every run each device behaves as its own watchdog automaton, whatever the other devices do |
| BridgeModel.SystemCouplingExact | src/bridge/bridge/src/CWirelessBridge.cpp:107-268 | in the whole system "error" is shown exactly while the counter exceeds the bound, throughout the run, iff the device is undisturbed |
| BridgeModel.FromStart | src/bridge/bridge/src/CWirelessBridge.cpp:46-73 | the same from start-up on, with the configured devices as keys at every moment |
| BridgeModel.SilenceIsReported | src/bridge/bridge/src/CWirelessBridge.cpp:141-187 | while the rest of the system runs on, a device with counter 0 and deadline t0 + 1000*seconds keeps its status before t0+(N+1)*(1000*seconds+1) and shows "error" from t0+(N+1)*(1000*seconds+gap) on |
| BridgeModel.SilenceFromStart | src/bridge/bridge/src/CWirelessBridge.cpp:46-187 | the same from start-up on for a device created at that time |
| BridgeModel.TickExact | src/bridge/bridge/src/CWirelessBridge.cpp:149-177 | a tick as one device sees it: nothing up to its deadline, then an attempt that moves it by the configured seconds, "error" exactly when the counter is at the bound |
| BridgeModel.MessageExact | src/bridge/bridge/src/CWirelessBridge.cpp:189-268 | a message as one device sees it: on its input topic and if no earlier row threw it is rearmed by the configured seconds, and "ok" follows unless its fields throw; else it is left alone |
| BridgeModel.FieldsThrowExact | src/bridge/bridge/src/CWirelessBridge.cpp:207-229 | with all numbers in range, a message to a device throws if and only if it has a field for every channel and stoi throws on that of the first mapped one |
| BridgeModel.BlankLeavesError | src/bridge/bridge/src/CWirelessBridge.cpp:203-232 | with all numbers in range, a message of empty fields that reaches a device with a mapped channel and "error" shown resets its counter and leaves "error" standing |
| BridgeModel.ErrorOutlivesSilence | src/bridge/bridge/src/CWirelessBridge.cpp:46-232 | from start-up, every run on which such a device stays silent for (N+1)*(T+gap) under ticks at most gap apart and then sends empty fields, at a reading no earlier than the last tick, ends with "error" shown over a rearmed block |
| BridgeModel.PeriodicSilence | src/bridge/bridge/src/CWirelessBridge.cpp:46-232 | there are such runs at every tick period, that of the executor included |
| Pacing.RunsPaced | src/system/components/executor/src/CExecutor.cpp:86-131 | with one fresh registration and no premature handler run, if no run of the task is more than L after its deadline, runs are at most period + L apart, the first counted from the registration |
| Pacing.SilenceUnderExecutor | src/bridge/bridge/src/CWirelessBridge.cpp:53-55 | such runs being the watchdog's ticks, a device last heard at t0 and silent from then on is untouched before t0+(N+1)*(1000*seconds+1) and "error" from t0+(N+1)*(1000*seconds+period+L) on |
| BridgeModel.PassIsTick | src/bridge/bridge/src/CWirelessBridge.cpp:149-177 | a pass over the map in any order is one tick of the system |
| BridgeModel.RouteIsUpdate | src/bridge/bridge/src/CWirelessBridge.cpp:189-268 | a routed message is one update of the system |
| StatusTopics.TopicShows | src/bridge/bridge/src/CWirelessBridge.cpp:172-231 | on a status topic nothing else writes to, the last text is the last status of its device |
| StatusTopics.TraceSound | src/bridge/bridge/src/CWirelessBridge.cpp:141-268 | everything published on a run, in any order of the watchdog passes, comes from a row of the table and adds up to the statuses shown |
| StatusTopics.TopicCouplingExact | src/bridge/bridge/src/CWirelessBridge.cpp:46-268 | from start-up on, on such a topic "error" is the last text exactly while the counter exceeds the bound, throughout the run, iff the device is undisturbed |
| Bridge.PrescribedTopicsExact | src/bridge/bridge/src/CWirelessBridge.cpp:75-105 | the subscribed topics are exactly the input topics and the channel topics marked for subscription |
| Bridge.PrescribedSession | src/bridge/bridge/src/CWirelessBridge.cpp:75-105 | whenever connected, the broker's session holds exactly the prescribed topics |
| Bridge.GetLine | src/bridge/bridge/src/CWirelessBridge.cpp:278-279 | one getline yields the next field and says whether more follows |
| Bridge.ParseIncomingTopic | src/bridge/bridge/src/CWirelessBridge.cpp:270-283 | the result joins to the message, is separator-free and has separators+1 fields |
| Bridge.CWirelessBridge.CreateDeviceList | src/bridge/bridge/src/CWirelessBridge.cpp:60-73 | the blocks created from the table, first row of a name winning |
| Bridge.CWirelessBridge.MqttSubscribe | src/bridge/bridge/src/CWirelessBridge.cpp:75-105 | the connection stores the prescribed topics, in order, and exactly when connected sends them to the broker and adds them to the session |
| Bridge.CWirelessBridge.CheckDevice | src/bridge/bridge/src/CWirelessBridge.cpp:151-176 | one automaton step and "error" exactly on exhaustion, with block and publication spelled out by the row's bound and seconds |
| Bridge.CWirelessBridge.ProcessDeviceList | src/bridge/bridge/src/CWirelessBridge.cpp:141-187 | every device is checked once, each publishes its own error or nothing, nothing else is published; in system terms one tick |
| Bridge.CWirelessBridge.UpdateInputs | src/bridge/bridge/src/CWirelessBridge.cpp:209-228 | what is published, and whether stoi threw or an index was out of range |
| Bridge.CWirelessBridge.UpdateMapped | src/bridge/bridge/src/CWirelessBridge.cpp:214-221 | the text at the first place of the mapping with the field's value is published, nothing if there is none, or stoi throws |
| Bridge.CWirelessBridge.SendControls | src/bridge/bridge/src/CWirelessBridge.cpp:238-265 | the control messages for a topic |
| Bridge.CWirelessBridge.ProcessRow | src/bridge/bridge/src/CWirelessBridge.cpp:194-266 | the block is rearmed before the fields are read, "ok" follows only if nothing threw |
| Bridge.CWirelessBridge.ProcessTopicUpdate | src/bridge/bridge/src/CWirelessBridge.cpp:189-268 | blocks, publications and outcome of a message over all devices, rows after a throwing one skipped |
| Bridge.CWirelessBridge.MqttEventProcessFunc | src/bridge/bridge/src/CWirelessBridge.cpp:107-139 | blocks and publications of the message, in system terms one update, and an exception is one component_level report |
| ConnMan.PassByStatus | src/system/components/connman/src/CConnMan.cpp:72-113 | one pass by the status seen: DISCONNECTED past the deadline connects and moves the deadline by the two timeouts while attempts are left, else reports once; CONNECTED restores the attempts and keeps the deadline; all else changes nothing |
| ConnMan.ActionByStatus | src/system/components/connman/src/CConnMan.cpp:75-102 | the attempts and reports the run lemmas count are exactly these connects and reports |
| ConnMan.ConnectsWhenDue | src/system/components/connman/src/CConnMan.cpp:75-90 | a client with attempts left that stays DISCONNECTED is connected on the first pass after its deadline and not before |
| ConnMan.FirstConnect | src/system/components/connman/src/CConnMan.cpp:34-47 | a new client that stays DISCONNECTED is connected on the first pass at a positive clock reading |
| ConnMan.ClientRefinement | src/system/components/connman/src/CConnMan.cpp:62-115 | over one life of a subscription a client's block is that of its own automaton, whatever other clients do |
| ConnMan.ReconnectSpacing | src/system/components/connman/src/CConnMan.cpp:78-90 | two connect() calls are more than connection_timeout + connection_cycle_timeout apart for any tick times and statuses |
| ConnMan.ReconnectRate | src/system/components/connman/src/CConnMan.cpp:78-90 | a window of W ms holds at most floor(W/(sum+1))+1 connects of a client |
| ConnMan.ReconnectBudget | src/system/components/connman/src/CConnMan.cpp:70-113 | between two observed CONNECTED states: exact numbers of connects and reports, before the wrap min(expired, attempts) and at most one |
| ConnMan.NoReconnectAfterReport | src/system/components/connman/src/CConnMan.cpp:92-102 | no connect after the exhaustion report before the counter wraps |
| ConnMan.CConnMan.AddSubscription | src/system/components/connman/src/CConnMan.cpp:34-47 | a new name gets a fresh block, a known one a report and no change |
| ConnMan.CConnMan.RemoveSubscription | src/system/components/connman/src/CConnMan.cpp:49-60 | the block of the name is dropped |
| ConnMan.CConnMan.HandleClient | src/system/components/connman/src/CConnMan.cpp:72-113 | one client's block and calls for each status it can have, spelled out by status, bound and timeouts |
| ConnMan.CConnMan.ConnectionHandler | src/system/components/connman/src/CConnMan.cpp:62-115 | every client is treated once and gets exactly its own calls, in any map order; connect is called exactly for those DISCONNECTED past their deadline with attempts left |
| Mqtt.Replay | src/bridge/mqtt/src/CMqttConnection.cpp:90-164 | on every run, whenever connected the session equals the set of all topics ever subscribed; a clean session is empty while disconnected |
| Mqtt.StatusExact | src/bridge/mqtt/src/CMqttConnection.cpp:120-164 | the status is CONNECTED exactly when the last connect or disconnect was a successful connect |
| Mqtt.InterruptedSubscribe | src/bridge/mqtt/src/CMqttConnection.cpp:90-104 | an interrupted subscribeTopic that ends connected is complete iff the topic was known or, with a clean session, no connect fell between its halves and, with a kept one, it began while connected |
| Mqtt.CMqttConnection.SubscribeTopic | src/bridge/mqtt/src/CMqttConnection.cpp:90-104 | the topic is stored, and sent to the broker exactly when connected |
| Mqtt.CMqttConnection.SetTopic | src/bridge/mqtt/src/CMqttConnection.cpp:106-118 | a message is sent when connected and dropped otherwise |
| Mqtt.CMqttConnection.OnConnect | src/bridge/mqtt/src/CMqttConnection.cpp:120-145 | success sets the status and sends every stored topic in order, failure leaves it disconnected |
| Mqtt.CMqttConnection.OnDisconnect | src/bridge/mqtt/src/CMqttConnection.cpp:155-164 | the status is disconnected and a clean session gone |
| Registry.FirstProviderExact | src/system/base/managers/src/CComponentManager.cpp:143-159 | the binding found is that of the least-named matching component, and none is found iff none matches |
| Registry.ResolveExact | src/system/base/managers/src/CComponentManager.cpp:132-170 | success iff every dependency is provided with its type; then exactly the requested names, each bound to the least-named provider |
| Registry.CastsAgree | src/system/base/component/include/component/TDepends.hpp:17-53 | on a resolver map the TDepends casts throw iff the pack asks for one name with two types |
| Registry.AdmitExact | src/system/base/managers/src/CComponentManager.cpp:37-60 | a loaded component is admitted iff it constructs, its pack is consistent and its dependencies are registered; otherwise which of the three errors it gives, leaving the registry alone |
| Registry.LibOfFirst | src/system/base/helpers/src/CComponentConfigParser.cpp:77-92 | a name used twice has the library path of its first entry |
| Registry.NamesDistinct | src/system/base/helpers/src/CComponentConfigParser.cpp:77-92 | accepted components have distinct names, because equal names share a library path |
| Registry.StartupExact | src/system/launcher/src/CLauncher.cpp:71-80 | the registration loop succeeds iff paths are pairwise distinct, importable and constructible, packs consistent and every dependency provided earlier with its type |
| Registry.BoundToEarlier | src/system/launcher/src/CLauncher.cpp:71-80 | in an accepted configuration every binding goes to an earlier component |
| Registry.SoleProviderBound | src/system/launcher/src/CLauncher.cpp:71-80 | in an accepted configuration a dependency with a single provider before it is bound to that one |
| Registry.DependenciesAcyclic | src/system/launcher/src/CLauncher.cpp:71-80 | every walk along the dependencies goes strictly down in registration order |
| ComponentManager.StartPhaseExact | src/system/base/managers/src/CComponentManager.cpp:100-130 | nothing is started before everything is initialised, both in name order, and it succeeds iff no call throws |
| ComponentManager.InitFailure | src/system/base/managers/src/CComponentManager.cpp:100-115 | the first registered component, in name order, whose initComponent throws is the last one called, and nothing is started |
| ComponentManager.StartFailure | src/system/base/managers/src/CComponentManager.cpp:117-130 | the first one whose startComponent throws is the last one called, after every registered component was initialised |
| ComponentManager.StartsUpExact | src/system/base/managers/src/CComponentManager.cpp:28-130 | a configuration is registered, initialised and started if and only if it is accepted and no registered component throws |
| ComponentManager.StartOrderExact | src/system/base/managers/src/CComponentManager.cpp:100-130 | if nothing throws, the start call of one component precedes that of another iff its name is smaller, likewise the init calls, and every init precedes every start |
| ComponentManager.StartedInNameOrder | src/system/base/managers/src/CComponentManager.cpp:28-170 | in a configuration that starts up, a component is started before, or after, one it is bound to exactly by the order of their names |
| ComponentManager.StartOrderSoundIff | src/system/base/managers/src/CComponentManager.cpp:28-170 | every component finds all it is bound to already started if and only if those have smaller names |
| Shipped.Starts | config/bridge_config_host.json:2-53 | the shipped names in their order, with the dependencies and interfaces of their libraries, are accepted and start up |
| Shipped.ListensToSink | config/bridge_config_host.json:2-53 | and the launcher then listens to its error sink |
| Shipped.BridgeStartsFirst | config/bridge_config_host.json:2-53 | there the bridge is bound to the executor and the MQTT connection and its start call precedes both of theirs |
| ComponentManager.CComponentLoader.LoadComponent | src/system/base/managers/src/CComponentLoader.cpp:17-37 | a path is loaded at most once, a failed import leaves an entry that may be retried |
| ComponentManager.CComponentManager.BindDependency | src/system/base/managers/src/CComponentManager.cpp:141-159 | the visit of all components binds the first provider |
| ComponentManager.CComponentManager.ResolveDependencies | src/system/base/managers/src/CComponentManager.cpp:132-170 | the loop computes the resolver's function or fails |
| ComponentManager.CComponentManager.RegisterComponent | src/system/base/managers/src/CComponentManager.cpp:28-67 | new registry, new libraries and error of one registration; an error leaves the registry alone |
| ComponentManager.CComponentManager.AddComponent | src/system/base/managers/src/CComponentManager.cpp:49-60 | a component is inserted once however many interfaces it has, and not at all without one |
| ComponentManager.CComponentManager.InitAndStartComponents | src/system/base/managers/src/CComponentManager.cpp:100-130 | the calls made, up to the first that throws |
| ErrorPipeline.ServeExact | src/system/launcher/src/CLauncher.cpp:100-123 | for every sequence of reports and timeouts: ended iff a report at user_level or critical_level was handled, and then exactly the reports through the first such one; before, handled plus queued is all that was reported, in order |
| ErrorPipeline.ServeCompletes | src/system/launcher/src/CLauncher.cpp:100-123 | with enough further pops the reports through the first at user_level or critical_level are handled and the loop ends, or all are and it waits |
| ErrorPipeline.UniQueue.Push | src/system/base/common/include/common/TUniQueue.hpp:44-51 | the item goes to the end |
| ErrorPipeline.UniQueue.Pop | src/system/base/common/include/common/TUniQueue.hpp:62-87 | the oldest item, waiting only on an empty queue; nothing iff nothing arrived |
| ErrorPipeline.CFinalHaven.Report | src/system/components/finalhaven/src/CFinalHaven.cpp:33-37 | one report is queued last |
| ErrorPipeline.CFinalHaven.SignalHandler | src/system/components/finalhaven/src/CFinalHaven.cpp:67-84 | a signal queues one user_level report with the text of its kind |
| ErrorPipeline.CFinalHaven.WaitAction | src/system/components/finalhaven/src/CFinalHaven.cpp:39-54 | pops are retried until one yields a report |
| Launcher.ApplicationExact | src/system/launcher/src/CLauncher.cpp:57-138 | for every configuration, given enough further pops: it fails, ends at once, or handles exactly the reports through the first fatal one and succeeds or waits; which of these is decided by acceptance, throwing components and final_haven with its interface |
| Launcher.FailsExactly | src/system/launcher/src/CLauncher.cpp:57-138 | on any pops it fails if and only if the configuration is not accepted, a registered component throws on init or start, or no final_haven is registered |
| Launcher.GoesOnWaiting | src/system/launcher/src/CLauncher.cpp:100-123 | in an application that serves, reports at system_level and component_level are all handled, in order, and it goes on waiting |
| Launcher.EndsAtFirstFatal | src/system/launcher/src/CLauncher.cpp:100-123 | the first report at user_level or critical_level is the last one handled, and the application succeeds |
| Launcher.CLauncher.RegisterComponents | src/system/launcher/src/CLauncher.cpp:71-80 | the loop ends at the first registration error |
| Launcher.CLauncher.ExitLoop | src/system/launcher/src/CLauncher.cpp:100-123 | the loop computes the served reports, the rest of the queue and whether it ended |
| Launcher.CLauncher.StartApplication | src/system/launcher/src/CLauncher.cpp:59-138 | result and handled reports of the whole application |

## Left out

- Concurrency below handler level: handlers, `stop_cyclic`, connection callbacks and watchdog ticks are atomic steps. `m_device_items` and `m_topics_list` have no lock in the source, so for them atomicity is an assumption; only `subscribeTopic` is also split in its two halves.
- The cancel loop of `stopExecution`: on runs each cancel is its own event and may interleave with anything; the method alone runs it undisturbed.
- Clocks: the executor's timers read the UTC system clock, watchdog and connection manager the steady clock. The executor's clock is assumed never to be set back (`Advance` only moves forward), and `Pacing.dfy` takes the two clocks to read alike.
- Worker threads: completions and posted functions may run in any order; exceptions of tasks become reports and are not followed further.
- Foreign libraries (boost::asio, mosquitto, boost::dll, DLT, sockets): only their effects are kept, namely armed wait, cancellation, broker session and importable factory. A SUBSCRIBE takes effect at once.
- Timers are values inside the executor's items, since no two items share one; the aliasing of the shared pointer held by a running handler is not modelled.
- Collection order: `std::unordered_map` is visited in an arbitrary order; where several devices publish in one pass only the publications of each device are stated.
- JSON parsing, file checks, command line, logging and POSIX signal set-up: the device table and the component list are taken as values.
- Event queues and listener threads between MQTT and bridge: events are delivered in order, one at a time; online events have no effect.
- A `connect()` or `getState()` of a client that throws, and settings that change during a subscription.
- Shipped libraries: their constructors, initComponent and startComponent are taken not to throw.
- Libraries whose import succeeds but whose factory function throws, and null interface pointers.
- Integer width of times and durations: milliseconds are unbounded integers; attempt counters, ids, channel numbers and mapped values have their C++ ranges.
- Text.CommandRoundTrip: the receiver of control messages is not part of the repository; `ParseCommand` is a reference reader.
- FinalHaven as a loaded component: the launcher object owns it directly, and reports made before the exit loop count as arriving during its first pop.
