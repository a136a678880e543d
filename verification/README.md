# A verified model of GUPnP

GUPnP is GNOME's implementation of the UPnP Device Architecture. This project models the parts of it
where state has to stay consistent over whole runs, and proves what they promise:

- **Eventing (GENA)**, section 4 of the UPnP Device Architecture 1.0. `Publisher` is the service side:
  the subscription table, SEQ per subscription, the notification queue with freeze and thaw, callback
  failover and deferred unsubscribe. `Subscriber` is the service proxy: the queue of pending
  notifications, gap detection, resubscription and lease renewal. `Eventing` joins the two by a channel
  that may lose notifications but neither reorders nor repeats them; `Resubscription` says when the proxy
  starts over, and `Failover` what becomes of a NOTIFY when callbacks fail. `PublisherHistory` and
  `ProxyHistory` read the two ends' states off the events of a run. `NotifyDispatch` is the walk over
  a variable's callbacks while they add and remove callbacks. `LeaseTimers` sets the publisher's timer
  against the subscriber's renewals.
- **Network contexts.** `ContextFilters` and `ContextManagers` hold contexts back from the application
  and let them through again as the filter changes; `LinuxContextManagers` feeds them from netlink
  messages. `FilterHistory` and `LinkHistory` read what the application sees off the events alone.
  `AddressMask` is the mask computed from a prefix length.
- **Discovery.** `Usn` prints and parses unique service names, `Discovery` and `ControlPoints` search
  description trees, keep one proxy per device and service, and retry downloads; `DiscoveryChain` follows
  a published name to its proxy and `Byebye` what a byebye leaves behind. `Publication` says what is
  published and `Downloads` what each event does to downloads and cache. `ResourceTypes` holds the two
  matchers of versioned types.
- **Action calls and names.** `ActionArguments`, `ActionMessage`, `MessageReading`, `SoapAction`, `CamelCase`.

Code that updates objects in place is a class whose methods are proved against a function (or, where a
table is walked in no fixed order, a relation) of its abstract state; the promises are lemmas about
that function over every run of events. `Subscription`, `EventSource`, `EventSink`, `DispatchQueue`,
`ContextView`, `Netlink` and `Discovery` hold those functions and lemmas.

HTTP, netlink and timers appear as events: a notification is delivered or lost, a response comes in
with a status, a timer fires. What the environment chooses (a generated SID, the jitter of a renewal,
the application's answers to `query-variable`, whether a context or URL can be set up) is a parameter.
Strings are C strings: they hold no NUL.

## What turned out to be conditional

- *Every lost event is noticed* holds, of two or more own events mixed with notifications for other
  SIDs, exactly when the SID was installed over a counter of 0, SEQ has not come round to 1, and no
  foreign notification comes where the counter can take it in place of an own event
  (`GapDetection.WhenEveryLossIsCaught`): a foreign notification is dropped but counted. A failed
  renewal clears the SID but not the counter (`GapDetection.AfterFailedRenewal`). The comment in
  `emit_notifications` speaks of SEQ wrapping at 2^32-1; the publisher wraps at 2^31-1.
- *Callbacks cannot have the list freed while it is walked* holds exactly when some registered callback
  is out of reach of their removals, or nothing is registered (`DispatchQueue.WhenEmissionSurvives`).
- *A subscription within its allowance does not expire* holds exactly for allowances below 76 s
  (`LeaseTimers.WhenAllowanceIsSafe`).
- *What is announced is active* holds all through a run exactly when no context that was withdrawn
  comes back while the filter lets it through (`ContextView.WhenAnnouncedAreActive`).
- *A byebye is final* exactly when the first download for the key is not waiting for its retry timer
  and no later one is live: only the first is cancelled, and cancelling does not stop a timer
  (`Byebye.WhenByebyeIsFinal`).
- *Signals per context alternate* holds exactly when no link is removed that is down and still has
  contexts (`Netlink.ApplicationSeesWhatIsUp`).
- *The mask keeps the prefix* holds exactly for lengths that cover the address or leave a remainder of 0
  or of 4 to 7 modulo 8
  (`AddressMask.WhenMaskIsRight`).
- *The version matchers agree* on versioned types exactly when neither the whole query equals the
  base's prefix, nor the query's prefix starts with the base's prefix and a colon and the text from
  there on reads as a version no later than the base's; among URNs with equally many fields neither
  can be (`ResourceTypes.WhenMatchersAgree`).
- *A published name leads to a proxy* exactly when it is not for a service type without a nonzero
  version: such a type is announced and downloaded for, but found nowhere
  (`DiscoveryChain.WhenPublishedBecomesProxy`).
- *A NOTIFY is tried at every further callback before it is given up* exactly when all pending
  NOTIFYs were last sent to the last callback, or only one is pending and the pointer is not ahead of
  it: NOTIFYs pending together share the pointer (`Failover.WhenFailoverIsThorough`).
- *The proxy resubscribes only after a loss on the channel* needs that notifications come while it
  listens and holds a SID (`Resubscription.NoLossNoResubscription`); an initial event that overtakes
  the response to SUBSCRIBE is dropped (`Resubscription.InitialEventOvertakesResponse`).
- *A name with its NUL fits the buffer of `strip_camel_case`* exactly when it is not empty
  (`CamelCase.StripFits`).
- *A printed USN parses back*, for UDNs that start with `uuid:` and types that are URNs, exactly when
  the UDN is separable from what follows (`Usn.UsnRoundTrip`); *a printed SOAPAction parses back*
  exactly when the type has no `#`.

## Model

| member | source | states |
|---|---|---|
| Eventing.EventsArriveInOrder | libgupnp/gupnp-service-proxy.c:897-959 | After every run of publisher, lossy FIFO channel and subscriber in which SIDs are installed over a zero counter, only the current SID's notifications are drained and SEQ has not wrapped, the events handed up under each SID are a gap-free prefix SEQ 0, 1, 2, ... of the publisher's send attempts |
| Eventing.DrainPrefix | libgupnp/gupnp-service-proxy.c:911-945 | With the counter at most the number already handed up, draining ascending later notifications hands up just the next ones without a hole |
| Eventing.StepKeepsInv | libgupnp/gupnp-service-proxy.c:897-1337 | Every clean step of the joint system keeps: handed-up events are a prefix per SID, everything queued or under way lies past it, and the counter never exceeds it |
| Resubscription.ResubscribesAfterDrop | libgupnp/gupnp-service-proxy.c:917-954 | After every clean run whose SIDs are new when installed, the idle handler gives the subscription up if and only if some action of the run dropped an attempt (lost on the channel, delivered to a proxy without a SID or not listening, or cleared with a queue) before one that is queued; then the queue is dropped, SID and counter are reset and UNSUBSCRIBE and SUBSCRIBE go out; otherwise all that is queued is handed up and nothing is sent |
| Resubscription.RunGone | libgupnp/gupnp-service-proxy.c:897-1107 | In every clean run an attempt the channel has passed is neither queued nor handed up if and only if some action of the run dropped it |
| Resubscription.NoLossNoResubscription | libgupnp/gupnp-service-proxy.c:897-959 | In every such run without a loss on the channel, and with every notification of the SID delivered while the proxy listens and holds a SID, the idle handler never gives the subscription up, and hands up everything delivered |
| Resubscription.InitialEventOvertakesResponse | libgupnp/gupnp-service-proxy.c:1077 | The second condition is needed: an initial event that arrives before the response with the SID is dropped, and the next event makes the proxy give the subscription up although the channel lost nothing |
| Eventing.ProxyStaysConsistent | libgupnp/gupnp-service-proxy.c:897-1549 | After every run from the start, clean or not, the renewal timer is set only under a SID, the idle handler is installed exactly while something is queued, and a subscribed proxy listens |
| GapDetection.WhenEveryLossIsCaught | libgupnp/gupnp-service-proxy.c:911-944 | For own events mixed in any way with notifications for other SIDs, whatever subset gets through hands up a prefix of the own events, if and only if there is at most one own event, or the counter started at 0, at most 2^31 own events were sent, and no foreign notification has a SEQ f with b own events of n before it such that f < b < n, or f <= b and b+1 < n |
| GapDetection.AfterFailedRenewal | libgupnp/gupnp-service-proxy.c:1229-1231 | A failed response drops the SID but leaves the counter, and the next subscription catches every loss exactly when, besides the above, nothing had been counted before |
| GapDetection.ForeignMessageHidesLoss | libgupnp/gupnp-service-proxy.c:934-944 | Whenever such a foreign notification is among what was sent, some loss pattern goes unnoticed: it stands in for a lost own event |
| GapDetection.FirstFalseResubscription | libgupnp/gupnp-service-proxy.c:928-937 | With nothing lost, attempts 0 to 2^32-1 all pass; attempt 2^32 is the first taken for a gap |
| GapDetection.CountSteps | libgupnp/gupnp-service-proxy.c:928-937 | The counter goes 0 to 2^32-1 and then from 1 on again; it is 0 once |
| GapDetection.WrappedStreamMisses | libgupnp/gupnp-service.c:1501-1505 | Once the publisher's SEQ has come round to 1, losing everything between event 0 and event 2^31 but event 1 goes unnoticed |
| EventSink.MessageIsUnderstood | libgupnp/gupnp-service-proxy.c:965-1107 | The NOTIFY the publisher makes of an attempt passes every header check and is queued with its SID, SEQ and body |
| EventSink.WhenQueued | libgupnp/gupnp-service-proxy.c:965-1107 | Exactly which requests get each of the five replies, and that a notification is queued exactly when its headers are right, its body is a property set and a SID is held |
| EventSink.DrainCounts | libgupnp/gupnp-service-proxy.c:921-944 | Without a gap every queued notification is counted; the counter keeps step with what is handed up exactly when all are for the current SID |
| EventSink.DrainAppend | libgupnp/gupnp-service-proxy.c:911-945 | Draining in two batches hands up the same events and stops at the same gap as draining in one |
| Subscriber.ServiceProxy.ServerHandler | libgupnp/gupnp-service-proxy.c:965-1107 | Replies as the header checks demand and queues exactly the accepted notifications |
| Subscriber.ServiceProxy.TakeNotifications | libgupnp/gupnp-service-proxy.c:911-945 | The loop over the queue is the recursive drain: same events, same counter, same gap |
| Subscriber.ServiceProxy.EmitNotifications | libgupnp/gupnp-service-proxy.c:897-959 | Delays while a subscription is in progress, otherwise drains, clears the queue and resubscribes on a gap |
| Subscriber.ServiceProxy.Subscribe | libgupnp/gupnp-service-proxy.c:1342-1447 | Cancels the timer, listens and sends SUBSCRIBE, or reports the subscription lost without a URL |
| Subscriber.ServiceProxy.Unsubscribe | libgupnp/gupnp-service-proxy.c:1452-1515 | Stops listening; only with a SID sends UNSUBSCRIBE and resets SID and counter |
| Subscriber.ServiceProxy.SetSubscribed | libgupnp/gupnp-service-proxy.c:1529-1549 | Subscribes or unsubscribes exactly when the wish changes |
| Subscriber.ServiceProxy.SubscribeGotResponse | libgupnp/gupnp-service-proxy.c:1197-1337 | The new state for a cancelled, failed, refused, SID-less or successful response, with the renewal delay |
| Subscriber.ServiceProxy.SubscriptionExpire | libgupnp/gupnp-service-proxy.c:1133-1192 | Clears the timer and sends a renewal for the SID, if there is one |
| ProxyHistory.ProxyFollowsActions | libgupnp/gupnp-service-proxy.c:1197-1549 | After every run the proxy is subscribed if and only if the application last asked for it, there is a URL, and no response since has refused it or failed; and it has reported just the losses those actions make |
| ProxyHistory.WhatResponsesDo | libgupnp/gupnp-service-proxy.c:1197-1337 | What every response leaves of the subscription: SID, listener, timer, and whether the loss is reported |
| ProxyHistory.WhatTogglesDo | libgupnp/gupnp-service-proxy.c:1342-1549 | What subscribing and unsubscribing ask of the publisher, set up and tear down |
| ProxyHistory.WhatIdleDoes | libgupnp/gupnp-service-proxy.c:897-959 | The idle handler keeps everything while a subscription is in progress; otherwise it clears the queue, and only a gap makes it ask the publisher for anything |
| Subscription.SeqAtSteps | libgupnp/gupnp-service.c:1497-1505 | The overflow rule makes attempt n carry 0 for n = 0 and ((n-1) mod (2^31-1))+1 after that, and 0 never again |
| EventSource.EveryAttemptInOrder | libgupnp/gupnp-service.c:1470-1579 | In every run: the first attempt is the initial state with SEQ 0, attempt n has the n-th SEQ, no other has 0, and a live subscription was sent, as first attempts, exactly the property sets flushed since it was accepted, once and in order |
| EventSource.FreezeThawConserves | libgupnp/gupnp-service.c:1561-1659 | Over every run, flushed sets laid end to end and then the queue are the notified values in call order; not frozen means an empty queue |
| EventSource.FinishedIsSilent | libgupnp/gupnp-service.c:124-127 | After unsubscribe and a successful delivery no later step (flush, introspection resend, failover) sends the subscription another NOTIFY |
| EventSource.UnsubscribeIsDeferred | libgupnp/gupnp-service.c:792-813 | An unsubscribe removes the entry at once exactly when a delivery has succeeded; otherwise it only marks it, and other entries are untouched |
| EventSource.UnsubscribedFallsSilent | libgupnp/gupnp-service.c:743-813 | In every run after an unsubscribe, nothing more is sent to the subscription once a delivery has succeeded |
| EventSource.RunInv | libgupnp/gupnp-service.c:661-990 | Every publisher event keeps conservation, SEQ numbering, pending bookkeeping and delivery order |
| PublisherHistory.FlushesFollowFreezes | libgupnp/gupnp-service.c:1561-1659 | After every run, the values notified since a freeze are held back and released by the thaw as one property set; any other value has gone out on its own |
| PublisherHistory.WhenSubscribed | libgupnp/gupnp-service.c:577-990 | A subscription is in the table from its acceptance to a timeout, the end of the root device, a refusal, an unsubscribe after a delivery, or introspection once it is both unsubscribed and delivered to |
| PublisherHistory.WhatIsSent | libgupnp/gupnp-service.c:1384-1579 | What each event sends a subscription: at most one NOTIFY, with which properties, the next SEQ, and to the callback at the pointer |
| PublisherHistory.WhatIsSentFirst | libgupnp/gupnp-service.c:590-631 | A new subscription is sent its initial state with SEQ 0 at its first callback, and nothing else |
| PublisherHistory.SentWhereCounted | libgupnp/gupnp-service.c:1411-1466 | In every run each NOTIFY goes to the callback given by the failures since the last success, round the list: after a success, the first |
| PublisherHistory.VariablesAreEvented | libgupnp/gupnp-service.c:960-978 | The variables asked for are the evented ones of the descriptions got, the last first |
| PublisherHistory.InitialBodyHolds | libgupnp/gupnp-service.c:590-622 | An initial event holds exactly the known variables the application has a value for, with that value |
| Failover.FailoverTerminates | libgupnp/gupnp-service.c:1384-1466 | However responses to pending NOTIFYs interleave, responses and resends are in total no more than if the callback list were tried through once per pending NOTIFY, the first time from the pointer on, and the pointer stays in the list |
| Failover.FailoverBounds | libgupnp/gupnp-service.c:1384-1466 | At most pending * callbacks responses come in, with at most pending * (callbacks - 1) resends, also when a refusal ends the run |
| Failover.FailoverBoundIsMet | libgupnp/gupnp-service.c:1427-1460 | If all responses are failures and none is left to come, exactly that many resends are made in total |
| Failover.PointerCounts | libgupnp/gupnp-service.c:1411-1466 | After any responses the pointer is the number of failures since the last success, modulo the length of the list |
| Failover.WhenFailoverIsThorough | libgupnp/gupnp-service.c:1384-1466 | In all runs of responses of any kind, in every order, no NOTIFY is given up before every callback after the one it was last sent to was tried, if and only if all pending NOTIFYs were last sent to the last callback, or just one is pending and it was not sent to a callback before the pointer's |
| Failover.WhenAllAreAtThePointer | libgupnp/gupnp-service.c:1427-1460 | If all pending NOTIFYs were last sent to the pointer's callback, that condition says: at most one is pending, or the pointer is at the last callback |
| Failover.TriesAreSent | libgupnp/gupnp-service.c:1427-1437 | Every resend counted for a NOTIFY is a NOTIFY really sent, to that callback and with that property set |
| Failover.FlushIsNeglected | libgupnp/gupnp-service.c:1427-1460 | With an initial state and a flush pending at the first of two callbacks, the flush can be given up without being sent to the second, which is sent the initial state twice |
| Failover.RespondDescends | libgupnp/gupnp-service.c:1406-1460 | Every response lowers (pending NOTIFYs, callbacks after the pointer) lexicographically |
| Subscription.RespondKeepsInv | libgupnp/gupnp-service.c:1384-1466 | Every response keeps numbering, pending bookkeeping and delivery order |
| Publisher.SubscriptionData.NotifySubscriber | libgupnp/gupnp-service.c:1469-1526 | Sends to the current callback with the current SEQ and files the message, unless the subscriber has gone |
| Publisher.SubscriptionData.NotifyGotResponse | libgupnp/gupnp-service.c:1384-1466 | Success, refusal, failover and failure change the subscription as specified |
| Publisher.Service.NotifyAll | libgupnp/gupnp-service.c:1572-1574 | Walking the table in any order notifies every entry exactly once |
| Publisher.Service.FlushNotifications | libgupnp/gupnp-service.c:1561-1579 | Empties the queue into one property set and sends it to every entry |
| Publisher.Service.CreatePropertySet | libgupnp/gupnp-service.c:1529-1559 | Draining the queue keeps every value in order |
| Publisher.Service.InitialState | libgupnp/gupnp-service.c:590-623 | Collects, in order, the state variables the application has a value for |
| Publisher.Service.Subscribe | libgupnp/gupnp-service.c:661-749 | Accepts exactly when there is a callback, files the subscription and sends its initial state |
| Publisher.Service.Unsubscribe | libgupnp/gupnp-service.c:792-813 | Removes or marks the subscription, and tells whether there was one |
| Publisher.Service.SubscriptionTimeout | libgupnp/gupnp-service.c:577-588 | Removes the subscription |
| Publisher.Service.GotIntrospection | libgupnp/gupnp-service.c:918-990 | Adds the evented variables, resends every subscription its initial state, with the variables asked for anew each time, and drops deletable entries |
| Publisher.Service.NotifyGotResponse | libgupnp/gupnp-service.c:1384-1466 | The table after a response, including removal after a refusal |
| Publisher.Service.NotifyValue | libgupnp/gupnp-service.c:1589-1616 | Queues the value and flushes unless frozen |
| Publisher.Service.FreezeNotify | libgupnp/gupnp-service.c:1626-1636 | Only sets the flag |
| Publisher.Service.ThawNotify | libgupnp/gupnp-service.c:1644-1659 | Clears the flag and flushes a nonempty queue |
| Publisher.Service.RootDeviceUnavailable | libgupnp/gupnp-service.c:1063-1078 | Purges all subscriptions |
| DispatchQueue.EmissionCallsEachOnce | libgupnp/gupnp-service-proxy.c:829-841 | One emission calls, each exactly once and in registration order, the callbacks registered at its start or during it, except just those removed before their turn; it is sure to get to its end if the callbacks leave some registered one alone |
| DispatchQueue.WalkIsBounded | libgupnp/gupnp-service-proxy.c:829-841 | The emission ends after at most as many calls as were waiting plus were added |
| DispatchQueue.WhenEmissionSurvives | libgupnp/gupnp-service-proxy.c:760-767 | Of callbacks that remove only callbacks with keys of a given set, none can have the list freed during the emission, whatever else they do, if and only if nothing is registered or some registered callback has another key |
| NotifyDispatch.NotifyData.AddNotify | libgupnp/gupnp-service-proxy.c:610-667 | Adds at the end unless the type differs, and makes a spent pointer point at the new node |
| NotifyDispatch.NotifyData.RemoveNotify | libgupnp/gupnp-service-proxy.c:718-778 | Removes the first match and keeps the pointer in the list, standing for the same callbacks less that one |
| NotifyDispatch.NotifyData.EmitNotification | libgupnp/gupnp-service-proxy.c:829-841 | The pointer walk is the queue of callbacks still to be called, under every script of additions and removals; the pointer ends NULL |
| NotifyDispatch.UnlinkMoves | libgupnp/gupnp-service-proxy.c:755-761 | The adjusted pointer stands, in the shortened list, for what it stood for less the removed node |
| LeaseTimers.RenewalWithinLease | libgupnp/gupnp-service-proxy.c:1264-1286 | For a lease T of at least 4 s the renewal delay is between T/4 and T/2+T/4-1; it is shorter than T exactly when T > 0 |
| LeaseTimers.LeaseIsAnnounced | libgupnp/gupnp-service.c:511-547 | The Timeout header the publisher prints is the lease the proxy reads |
| LeaseTimers.RenewalIsSet | libgupnp/gupnp-service-proxy.c:1264-1302 | For every lease of at least 4 s and every jitter, the response sets the proxy's timer to between T/4 and T/2+T/4-1, and when it fires the proxy renews its SID |
| LeaseTimers.OtherLeases | libgupnp/gupnp-service-proxy.c:1253-1277 | No or an infinite lease sets no timer; a negative one counts as 1800 s |
| LeaseTimers.EveryDelayOccurs | libgupnp/gupnp-service-proxy.c:1284-1286 | Every delay in that range can come up |
| LeaseTimers.LiveSubscriptionNeverExpires | libgupnp/gupnp-service.c:577-588 | In every timed run of the proxy against the publisher where each response delay and the renewal delay after it stay within 75 s together, the 300 s timer never fires |
| LeaseTimers.WhenAllowanceIsSafe | libgupnp/gupnp-service.c:30 | No run within an allowance for response and renewal delay fires the 300 s timer if and only if the allowance is below 76 s |
| ContextView.FilteringIsRecomputed | libgupnp/gupnp-context-manager.c:117-368 | After any run over an alternating backend, `filtered` has no duplicates and is exactly the known contexts the filter blocks, all inactive; the application has been told of exactly the others; signals alternate |
| FilterHistory.WhatIsAnnounced | libgupnp/gupnp-context-manager.c:117-368 | Over every run on an alternating backend the application has last been told of a context if and only if the backend has last said it is there, and the filter was last switched off or has no entry left or has the context's interface, address or network added and not since removed or cleared |
| FilterHistory.WhatIsBlocked | libgupnp/gupnp-context-filter.c:459-478 | A filter blocks a context when it is on, has entries, and none is its interface, address or network |
| ContextView.StepKeepsView | libgupnp/gupnp-context-manager.c:158-224 | An event keeps the view if and only if the backend announces only what is not there and withdraws only what is |
| ContextView.StepKeepsActive | libgupnp/gupnp-context-manager.c:158-224 | An event keeps every announced context active if and only if it is not an available signal for a switched-off context that the filter lets through |
| ContextView.OffOnceWithdrawn | libgupnp/gupnp-context-manager.c:203-204 | In every run on an alternating backend, a context that is not there is switched off exactly when it has been withdrawn before |
| ContextView.WhenAnnouncedAreActive | libgupnp/gupnp-context-manager.c:158-224 | Over every run on an alternating backend, announced contexts are active all the way if and only if no withdrawn context comes back while the filter lets it through |
| ContextFilters.ContextFilter.SetEnabled | libgupnp/gupnp-context-filter.c:238-251 | Notifies exactly when the flag changes |
| ContextFilters.ContextFilter.AddEntry | libgupnp/gupnp-context-filter.c:310-328 | Adds the entry and tells whether it is new |
| ContextFilters.ContextFilter.AddEntryV | libgupnp/gupnp-context-filter.c:341-360 | Adds all entries and notifies once, exactly when one was new |
| ContextFilters.ContextFilter.RemoveEntry | libgupnp/gupnp-context-filter.c:374-392 | Removes the entry and tells whether it was there |
| ContextFilters.ContextFilter.Clear | libgupnp/gupnp-context-filter.c:427-438 | Removes all entries and notifies in any case |
| ContextManagers.ContextManager.OnContextAvailable | libgupnp/gupnp-context-manager.c:158-190 | Files a blocked context as filtered, inactive and stopped; does nothing for a synthesized signal |
| ContextManagers.ContextManager.OnContextUnavailable | libgupnp/gupnp-context-manager.c:192-224 | Switches the context off, forgets it, and stops the signal if it was filtered |
| ContextManagers.ContextManager.OnFilterChange | libgupnp/gupnp-context-manager.c:226-296 | The walk over all contexts leaves what recomputing from the filter gives, with one signal per context that changes sides |
| ContextManagers.ContextManager.OnFilterEnabled | libgupnp/gupnp-context-manager.c:298-368 | The same when the filter is switched on or off |
| ContextManagers.ContextManager.SetEnabled | libgupnp/gupnp-context-filter.c:238-251 | Filter setter and handler together keep the lists current |
| ContextManagers.ContextManager.AddEntry | libgupnp/gupnp-context-filter.c:310-328 | Likewise for a new entry |
| ContextManagers.ContextManager.AddEntries | libgupnp/gupnp-context-filter.c:341-360 | Likewise for several entries |
| ContextManagers.ContextManager.RemoveEntry | libgupnp/gupnp-context-filter.c:374-392 | Likewise for a removed entry |
| ContextManagers.ContextManager.Clear | libgupnp/gupnp-context-filter.c:427-438 | Likewise for clearing |
| Netlink.ApplicationSeesWhatIsUp | libgupnp/gupnp-linux-context-manager.c:378-509 | Over every run of netlink messages and filter changes the application has last been told of exactly the contexts held by UP interfaces that the filter passes; IGNOREd interfaces hold none; signals alternate if and only if no link was removed that was down with contexts |
| LinkHistory.ApplicationSeesWhatMessagesSay | libgupnp/gupnp-linux-context-manager.c:378-990 | The same read off the messages and filter changes: announced are exactly the contexts whose address the messages leave held by an interface they leave up, and whose interface, address or network the changes let through |
| LinkHistory.TableFollowsMessages | libgupnp/gupnp-linux-context-manager.c:631-856 | After any messages an interface is known exactly if its last link message reports it, up if that message says so, ignored by its first report since it was last removed, and holds exactly the usable addresses added and not gone since, with their names and networks |
| Netlink.StepKeepsTable | libgupnp/gupnp-linux-context-manager.c:631-688 | Contexts are filed under their own address, once, and never on an ignored interface |
| Netlink.NetKeepsInv | libgupnp/gupnp-linux-context-manager.c:809-856 | One message, in whatever order its signals come, keeps manager and backend in agreement |
| LinuxContextManagers.LinuxContextManager.HandleDeviceStatusChange | libgupnp/gupnp-linux-context-manager.c:808-844 | Table and signals after a link message |
| LinuxContextManagers.LinuxContextManager.RemoveDevice | libgupnp/gupnp-linux-context-manager.c:483-509 | Withdraws every context of the interface, up or not |
| LinuxContextManagers.LinuxContextManager.CreateContext | libgupnp/gupnp-linux-context-manager.c:378-437 | Creates at most one context per address, and signals it only on an interface that is up |
| LinuxContextManagers.LinuxContextManager.RemoveContext | libgupnp/gupnp-linux-context-manager.c:655-688 | Removes the context, withdrawing it if the interface is up |
| LinuxContextManagers.LinuxContextManager.ReceiveNetlinkMessage | libgupnp/gupnp-linux-context-manager.c:901-990 | The dispatch: tentative, deprecated and wireless-status messages change nothing |
| AddressMask.GenerateMask | libgupnp/gupnp-linux-context-manager.c:78-107 | The byte loop with its table computes the specified mask, with every table index in bounds |
| AddressMask.WhenMaskIsRight | libgupnp/gupnp-linux-context-manager.c:78-107 | Exactly the first bits are kept for all addresses if and only if the length covers the address or modulo 8 is 0 or 4 to 7 |
| AddressMask.LowNibbleInstead | libgupnp/gupnp-linux-context-manager.c:94-104 | For remainders 1 to 3 that many bits of the low nibble are kept and the high nibble is lost, for every byte |
| Discovery.DeviceSearch | libgupnp/gupnp-control-point.c:448-521 | Loading a description creates a device proxy iff some device at any depth has the UDN and none exists yet, for the first match in post-order |
| Discovery.ServiceSearch | libgupnp/gupnp-control-point.c:402-521 | Likewise for a service of a compatible type of a device with the UDN |
| DescriptionTree.PostOrderIsTree | libgupnp/gupnp-control-point.c:459-481 | The search order reaches exactly the devices of the tree |
| DescriptionTree.EmbeddedComeFirst | libgupnp/gupnp-control-point.c:459-481 | A device comes right after all devices embedded in it |
| Discovery.ProxiesAreUnique | libgupnp/gupnp-control-point.c:286-361 | Over every run no two proxies share a key, a proxy is announced exactly while it exists, signals alternate per key, and no download exceeds 4 GETs, 35 s of waiting or a 40 s timeout |
| Discovery.RetriesTerminate | libgupnp/gupnp-control-point.c:665-693 | From N tries and timeout t a chain of failing downloads issues exactly N GETs and waits t*(2^(N-1)-1) seconds |
| Downloads.WhatAnnouncementsFetch | libgupnp/gupnp-control-point.c:710-924 | An announcement starts a download, of four GETs and 35 s of waiting at most, exactly when it has a location and a name that parses, the document is not cached and the address can be used |
| Downloads.WhatBecomesOfDownloads | libgupnp/gupnp-control-point.c:577-700 | After each outcome a download goes on or is dropped, its document is cached, and it makes a proxy exactly for a key it was meant for and describes |
| Downloads.LoadedServesAnnouncements | libgupnp/gupnp-control-point.c:641-658 | A loaded document serves later announcements from its address without a download until it is finalized |
| Downloads.WhatTimersDo | libgupnp/gupnp-control-point.c:796-811 | When its timer fires a waiting download is replaced by one with what is left of its tries |
| Downloads.WhatByebyesRemove | libgupnp/gupnp-control-point.c:926-982 | A byebye removes the proxy of just its key |
| Byebye.WhenByebyeIsFinal | libgupnp/gupnp-control-point.c:926-997 | After a byebye no download for the key is left live, and the key has no proxy in any run without a new announcement for it, if and only if the first download for the key was not waiting for its timer and every later one was already cancelled and not waiting |
| Byebye.RunStaysGone | libgupnp/gupnp-control-point.c:984-993 | Without a live download, without a new announcement, and with cancelled downloads ending as cancelled, a key without a proxy never gets one |
| Byebye.LiveComesBack | libgupnp/gupnp-control-point.c:796-811 | A waiting download, or one in flight that is not cancelled, can bring the proxy back with nobody announcing it |
| ControlPoints.ControlPoint.CreateAndReportServiceProxy | libgupnp/gupnp-control-point.c:286-324 | Creates and reports a proxy only if there is none |
| ControlPoints.ControlPoint.CreateAndReportDeviceProxy | libgupnp/gupnp-control-point.c:326-361 | Likewise for devices |
| ControlPoints.ControlPoint.ProcessServiceList | libgupnp/gupnp-control-point.c:402-445 | The loop visits the services in order |
| ControlPoints.ControlPoint.ProcessDeviceList | libgupnp/gupnp-control-point.c:448-521 | The recursion visits the devices in post-order |
| ControlPoints.ControlPoint.GotDescriptionUrl | libgupnp/gupnp-control-point.c:577-700 | State after each outcome of a download, including retry bookkeeping |
| ControlPoints.ControlPoint.LoadDescription | libgupnp/gupnp-control-point.c:710-791 | Uses the cache or starts a download |
| ControlPoints.ControlPoint.DescriptionUrlRetryTimeout | libgupnp/gupnp-control-point.c:796-811 | Replaces the waiting download by a new one |
| ControlPoints.ControlPoint.ResourceAvailable | libgupnp/gupnp-control-point.c:895-924 | Parses the name and loads the description |
| ControlPoints.ControlPoint.ResourceUnavailable | libgupnp/gupnp-control-point.c:926-997 | Removes and reports the proxy and cancels the first matching download |
| DiscoveryChain.FetchMakes | libgupnp/gupnp-control-point.c:577-700 | A download that fails fewer times than it has tries, each time followed by its timer, makes a proxy for its key if and only if the description describes the key |
| DiscoveryChain.WhenDescribed | libgupnp/gupnp-root-device.c:174-255 | In a tree of good UDNs and types, a published name parses to a key that the tree's own description describes if and only if it is not for a service type without a nonzero version |
| DiscoveryChain.WhenPublishedBecomesProxy | libgupnp/gupnp-control-point.c:895-924 | A name published from a tree of good UDNs and types leads to a proxy for the device or service it was printed for if and only if it is not for a service type without a nonzero version, or the proxy was there before: at once if its description is cached, and otherwise in spite of up to three failed tries |
| DiscoveryChain.EverythingIsFound | libgupnp/gupnp-root-device.c:174-255 | Every named device at any depth of a tree of good UDNs and types, and every service of it with a version, is published and found under its own name |
| Usn.UsnRoundTrip | libgupnp/gupnp-control-point.c:813-893 | For UDNs that start with "uuid:" and types that are URNs of their kind, a name printed for a root device, device, device type or service parses back to its UDN and exactly its service type or none, if and only if the UDN has no "::" and, when followed by something, does not end in ":" |
| Usn.PublishedNamesParse | libgupnp/gupnp-root-device.c:174-255 | Every name published at any depth of a tree of good UDNs and types parses to the device or service it was printed for |
| Usn.WhichNamesParse | libgupnp/gupnp-control-point.c:813-893 | Exactly the names that parse: those that begin with "uuid:" and have no double colon, or one, before a root device, a device type or a service type |
| Publication.WhatIsPublished | libgupnp/gupnp-root-device.c:174-255 | What is published is exactly the root name and, for every device whose own and enclosing devices have a UDN and a type, its UDN, its type and each of its service types, as often as the tree has them |
| Usn.ResourceGroup.FillResourceGroup | libgupnp/gupnp-root-device.c:174-255 | Adds exactly the names of the device, its services and everything embedded, in document order |
| Usn.ResourceGroup.Publish | libgupnp/gupnp-root-device.c:433-441 | The root name, then everything in the tree |
| ResourceTypes.MatchersAgreeOnUrns | libgupnp/gupnp-control-point.c:363-399 | On all five-field URNs with versions 1 to 2^31-1 both matchers mean: same type, same or later version |
| ResourceTypes.WhenMatchersAgree | libgupnp/gupnp-device-info.c:1003-1050 | On arbitrary prefixes they agree if and only if the query does not stray past the base prefix |
| ResourceTypes.CompareIsPreorder | libgupnp/gupnp-control-point.c:363-399 | The relation is reflexive, transitive and monotone in the version |
| ResourceTypes.VersionsAreNumbers | libgupnp/gupnp-control-point.c:363-399 | Whatever stands for a version counts as the number it reads as: one matcher wants both not to be 0, the other takes any |
| ResourceTypes.UnversionedQueries | libgupnp/gupnp-device-info.c:1003-1050 | A query without a version finds every version of its type, and a type without a colon is found only under itself |
| ActionArguments.ArgumentsAreIndexed | libgupnp/gupnp-service-proxy-action.c:576-597 | After any run of additions and settings the index is exact, names are unique, names, types and positions are those of the accepted additions in call order, and each value is what that name's own operations settle on |
| ActionArguments.WhatIsReported | libgupnp/gupnp-service-proxy-action.c:576-597 | After any run, additions and settings are refused for just the reasons the operations on that name give |
| ActionMessage.ServiceProxyAction.AddArgument | libgupnp/gupnp-service-proxy-action.c:576-597 | Refuses a known name, otherwise appends and indexes |
| ActionMessage.ServiceProxyAction.Set | libgupnp/gupnp-service-proxy-action.c:1058-1102 | Unknown name, wrong type or new value, and nothing else changed |
| ActionMessage.ServiceProxyAction.Serialize | libgupnp/gupnp-service-proxy-action.c:599-632 | The inserts at a moving position give the plain concatenation, whatever was serialized before |
| MessageReading.MessageReadsBack | libgupnp/gupnp-service-proxy-action.c:599-632 | For names fit for tags and escaped values, the message determines the action, the service type and every argument with its value, in order |
| SoapAction.SoapActionRoundTrip | libgupnp/gupnp-service.c:396-415 | The header printed at gupnp-service-proxy.c:428 parses back to type and action if and only if the type has no '#' |
| SoapAction.OtherHeaders | libgupnp/gupnp-service.c:396-415 | A header without quotes is understood, and one without '#' names no action |
| CamelCase.StripCamelCase | libgupnp/gupnp-service.c:1661-1689 | For every nonempty name the two-index loop stays in the buffer of twice its length and writes the stripped name and a NUL |
| CamelCase.StripFits | libgupnp/gupnp-service.c:1669-1670 | At most n+1+(n-1)/2 bytes are written, which fit in 2n if and only if the name is not empty |
| CamelCase.StripMeans | libgupnp/gupnp-service.c:1661-1689 | The output has no upper case, equals the lower-cased name up to underscores, and is a fixed point |
| CamelCase.WhereUnderscoresGo | libgupnp/gupnp-service.c:1671-1685 | Exactly before which letters an underscore goes, and what each letter becomes |
| Decimal.ReadBack | libgupnp/gupnp-service-proxy.c:1012-1022 | A printed number is read back by strtol, strtoul and atoi whenever it fits |
| Decimal.ReadsNumbers | libgupnp/gupnp-service-proxy.c:1012-1022 | Blanks, a sign, a number and anything after it are read as that number, cut to the reader's range |

## Left out

- Publisher.Service.CreatePropertySet: states only that all values are taken in order; the XML markup and the encoding of the values are not modelled, so a property set is the list of its names and encoded values.
- Byebye.WhenByebyeIsFinal: takes for granted that some description can describe the key, since a key that no description matches never gets a proxy, and that a cancelled transfer ends as cancelled.
- Failover.WhenFailoverIsThorough: follows what is pending through runs of responses, of a subscription that has not been both unsubscribed and delivered to; notifications sent in between are not followed.
- NotifyDispatch.NotifyData.EmitNotification: after the last callback of a variable is removed during its emission the original reads freed memory; the model reports that outcome and says nothing beyond it.
- The `*` notifications of `add_raw_notify`: their loop has no `next_emit` and its documentation forbids removing callbacks from inside it.
- Parsing of the Callback header (at most six URLs of at most 256 bytes, inside the network) and the Host, NT, SID and Callback checks of the subscription handler: a subscription starts from its accepted callbacks.
- Renewal requests on the publisher (`resubscribe`) touch only the timer and are part of the lease model, not of the subscription table.
- HTTP, sockets, netlink byte decoding, ioctl, gssdp and libxml: messages, attributes and documents are values; query results, created contexts and usable URLs are parameters.
- ESSID lookup: the network name of a context is a parameter.
- Managed control points and root devices per context, boot-ids, reference counts and freeing.
- Context identity is a number, not an object, so aliasing of contexts is not modelled; the switch `active` is kept as a set in the manager.
- 32-bit overflow of a doubled retry timeout: with the constants used the timeout stays at most 40 (Discovery.ProxiesAreUnique).
- User code that edits the filter or toggles the subscription from inside a signal, except in the dispatch of callbacks.
- The connman, NetworkManager, Unix and Windows context managers, access control, file hosting, introspection parsing, action results: I/O, wrappers or easy members.
