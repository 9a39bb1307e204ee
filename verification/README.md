# Verified models of emite

This project models the parts of emite that carry its hardest guarantees, and proves
those guarantees with Dafny 4.11. `dafny verify dfyconfig.toml` checks everything.

* **The BOSH connection manager** (`BoshSession`, `BoshServer`, `BoshEnding`,
  `BoshAdmission`, `BoshWindow`, `FirstRid`, `Network`, `SessionObjects`): many request
  workers share one session, with its rid window, two-entry response cache, in-order gate
  and termination. `BoshServer` is a state machine over the workers' atomic steps; all
  theorems quantify over every interleaving. The objects `Session` and `Response` are
  proved against the functions that the steps use.
* **The BOSH client** (`BoshClient`, `BoshRetry`, `BoshCalls`, `BoshConnection`): an
  event-driven machine over rid, queued body, connection counter, errors, dispatch flag and
  timers; what becomes of failures, of calls and of the end of a stream. The class in
  `BoshConnection` updates its fields and is proved to be the value function in
  `BoshClient`, about which the theorems speak.
* **Client and connection manager together** (`EndToEnd`): the strongest theorem, on what
  the XMPP server receives. XEP-0124 asks for it in sections 9 to 14.
* **The roster's group index** (`Roster`, `RosterEffects`, `RosterObjects`): group objects
  that share item objects, and the events about groups.
* **Packets** (`PacketTree`, `PacketText`, `PacketObjects`, `TextUtils`, `TextCodes`):
  breadth-first search, escaping, and the printer with a reader that inverts it.
* **The cookie serializer** (`SerializableMap`).
* **Layouts** (`Treemap`, `TreemapRows`, `TreemapLayout`, `Graph`, `BreadthFirst`,
  `TraversalOrder`, `GraphObjects`, `Moebius`, `Hypertree`): the squarified treemap and what
  fixes its rows, the traversal that can queue a node twice, and the hyperbolic placement by
  moves of the unit disc, in exact real arithmetic.

## How the models are built

Where the program updates objects, a class updates the same fields, and its methods are
proved equal to functions on values; the theorems are lemmas about these functions.
Choices the program leaves to its environment are left open and hold for every choice:
which worker runs, what the network delivers next, what the server sends, whether the
connector accepts a request, in which order a hash map lists its keys.

## Where a promise fails

Each of these comes with the condition under which the promise holds, and an input on
which it does not.

* `Network.AliveUnlessPolling`, `Network.QuickPollIsThrownOut`,
  `EndToEnd.KeepAlivesThrownOut`: a client that asked for `hold` 0 is thrown out when an
  empty request comes too soon after another; the emite client sends one 300 milliseconds
  after each answer, and 2 seconds are asked for. This never happens with `hold` above 0,
  nor with at most one empty request.
* `Network.DeadlockExactly`, `Network.LostBellDeadlocks`: the worker that creates a session
  answers before it marks its rid, and then rings nobody. A request that reaches the gate
  in between waits for ever. Apart from this and from being thrown out, a well-behaved
  client always gets its answers; `EndToEnd.SettlesExactly` says the same of client and
  server together.
* `EndToEnd.AddressedExactly`, `EndToEnd.EarlyPacketIsLost`: a packet given to `send` before
  `connect` is answered goes out in a request that names no session, and is lost.
* `FirstRid.OrderedIfPositive`, `FirstRid.OutOfOrder`: forwarding is in order only if the
  first rid is positive, as XEP-0124 asks of clients where it speaks of request ids; the
  connection manager does not check it. The emite client starts at 1000 or above.
* `BoshClient.ConservedUnlessRefused`, `BoshClient.RefusedSendLoses`: stanzas are lost for
  good when the connector throws on the first transmission of the request with them.
* `BoshClient.RidsWithoutGap`, `BoshClient.RefusalLeavesGap`: an accepted request after a
  refused one leaves a gap in the rids, beyond which the connection manager forwards
  nothing (`BoshServer.NothingBeyondGap`).
* `BoshClient.TerminateRid`, `BoshClient.DisconnectSkipsRid`: `disconnect` skips a rid
  exactly when a body is queued.
* `BoshClient.RestartKeepsCalm`, `BoshClient.RestartWhileIdleStalls`: `restartStream`
  outside dispatch stalls the stream exactly when the stream is idle.
* `BoshClient.CounterCountsErrors`, `BoshClient.ErrorMiscounts`: the counter of connections
  is too high by the number of transport errors.
* `TextUtils.RoundTrip`, `TextUtils.EntityIsSwallowed`: `unescape(escape(s))` is `s` only
  without four literal entities.
* `Roster.PushAgrees`, `Roster.UnknownRemovalIsStored`: a removal of an unknown contact
  stores it.
* `Roster.RetrievalAgrees`, `Roster.RetrievalKeepsStale`: a second retrieval keeps stale
  memberships of named groups.
* `RosterObjects.WeedingPassesOverNeighbours`, `RosterObjects.WeedingPassesOver`: an update
  leaves a stale name in the item's own list of groups (never in the index) exactly when
  two neighbouring names are stale.
* `BreadthFirst.VisitsOnceOnTrees`, `BreadthFirst.DepthsAreDistancesUnlessFlat`,
  `BreadthFirst.TriangleVisitsTwice`: the traversal visits each node once exactly when the
  component of its root is a tree, and its depths are distances exactly when no edge joins
  two nodes at the same distance. A tree with a repeated identifier can break both.
* `Graph.LonelyRoot`: a tree of one node is not loaded at all.

## Model

| member | source | states |
|---|---|---|
| `EndToEnd.EndToEndOrder` | emite-proxies/src/main/java/org/jabber/JabberHTTPBind/JHBServlet.java:152-382 | in every run of client, reordering network and interleaved workers, polling sessions included, what the XMPP server has received is a prefix of what the application passed to `send`; the session lives on if and only if no empty request was found too frequent, so always with `hold` above 0 or at most one empty request |
| `EndToEnd.EndToEndComplete` | emite-lib/src/com/calclab/emite/core/client/bosh/XmppBoshConnection.java:155-304 | once no request is open, the XMPP server has received exactly the stanzas passed to `send`, in order: nothing stays queued |
| `EndToEnd.SettlesExactly` | emite-proxies/src/main/java/org/jabber/JabberHTTPBind/JHBServlet.java:224-519 | after any run of the whole system, everything passed to `send` can come to be received without further packets, if and only if in the run the second request did not enter the monitor before the creating worker marked its rid and no empty request was found too frequent |
| `EndToEnd.Settles` | emite-lib/src/com/calclab/emite/core/client/bosh/XmppBoshConnection.java:179-259 | from every state in which the session lives and nobody has missed the bell there is such a way: a bare answer queues nothing, and the measure falls |
| `EndToEnd.AddressedExactly` | emite-lib/src/com/calclab/emite/core/client/bosh/XmppBoshConnection.java:155-211 | in every run the requests after the opening one name their session, and a packet given next goes into such a request if and only if the stream has got its sid |
| `EndToEnd.EarlyPacketIsLost` | emite-proxies/src/main/java/org/jabber/JabberHTTPBind/JHBServlet.java:422-439 | a packet given before `connect` is answered goes out without a sid; the answer to that request ends the stream and the packet is lost |
| `EndToEnd.NothingAfterEarlyPacket` | emite-proxies/src/main/java/org/jabber/JabberHTTPBind/JHBServlet.java:224-258 | since the rid of that request never comes to the session, in every run of the workers the session forwards nothing at all |
| `EndToEnd.AdvanceLively` | emite-lib/src/com/calclab/emite/core/client/bosh/XmppBoshConnection.java:179-259 | each step of the composed system keeps an idle stream awake, and a stream without sid waiting for its first answer |
| `EndToEnd.AdvanceKeeps` | emite-lib/src/com/calclab/emite/core/client/bosh/XmppBoshConnection.java:64-89 | every step of the composed system (call, timer, answer, network, worker) keeps client and server in agreement about open rids and issued payloads |
| `EndToEnd.RunsKeepSystem` | emite-lib/src/com/calclab/emite/core/client/bosh/XmppBoshConnection.java:155-304 | the agreement of client and server and the wakefulness of the client hold after every run |
| `Network.NeverRejected` | emite-proxies/src/main/java/org/jabber/JabberHTTPBind/JHBServlet.java:184-221 | for a client with consecutive rids and at most two unanswered, every arriving request is found new, inside the rid window and below the pending limit, for every delivery order and interleaving |
| `Network.LowestCanMove` | emite-proxies/src/main/java/org/jabber/JabberHTTPBind/JHBServlet.java:224-258 | while something is open and nobody has missed the bell, an answer is under way, the session is still being created, or the lowest unmarked request is in transit or its worker can take a step (why MAX_REQUESTS is 2) |
| `Network.StepKeepsNet` | emite-proxies/src/main/java/org/jabber/JabberHTTPBind/JHBServlet.java:152-382 | every step of client, network and workers, the creating worker included, keeps the invariant behind these properties, except one that throws a polling client out |
| `Network.RunKeepsNet` | emite-proxies/src/main/java/org/jabber/JabberHTTPBind/JHBServlet.java:152-382 | after every run the session lives and the invariant holds, or the client was thrown out of its polling session, exactly according to the steps of the run |
| `Network.StartOfNet` | emite-proxies/src/main/java/org/jabber/JabberHTTPBind/JHBServlet.java:389-519 | the invariant holds when the new session, polling or not, is about to send its first response |
| `Network.AliveUnlessPolling` | emite-proxies/src/main/java/org/jabber/JabberHTTPBind/JHBServlet.java:299-321 | for each m, every run of a well-behaved client with at most m empty requests keeps its session alive if and only if `hold` is above 0 or m is at most 1: `lastPoll` starts at 0, so the first empty request is never too frequent |
| `Network.AliveWithFewPolls` | emite-proxies/src/main/java/org/jabber/JabberHTTPBind/JHBServlet.java:299-321 | with `hold` above 0, or with at most one empty request, every run keeps it alive |
| `Network.QuickPollIsThrownOut` | emite-proxies/src/main/java/org/jabber/JabberHTTPBind/JHBServlet.java:299-321 | the failing run of every polling session: one empty request is answered, and the next one is found too frequent |
| `Network.ThrowsOutWhen` | emite-proxies/src/main/java/org/jabber/JabberHTTPBind/JHBServlet.java:299-321 | a client is thrown out only with `hold` 0 and for an empty request after another one that was let through |
| `EndToEnd.KeepAlivesThrownOut` | emite-lib/src/com/calclab/emite/core/client/bosh/XmppBoshConnection.java:179-199 | such a run of the whole system: the application sends nothing, and the keep-alives of the client end its polling session |
| `Network.StepIsCloser` | emite-proxies/src/main/java/org/jabber/JabberHTTPBind/JHBServlet.java:224-258 | every step that is not a new request, and does not throw a polling client out, makes a well-founded measure fall, so waiting cannot go on for ever |
| `Network.Drains` | emite-proxies/src/main/java/org/jabber/JabberHTTPBind/JHBServlet.java:224-370 | from every reachable state in which nobody has missed the bell a run without new requests answers everything |
| `Network.MissedWhen` | emite-proxies/src/main/java/org/jabber/JabberHTTPBind/JHBServlet.java:226-246 | a step makes somebody miss the bell exactly when it takes the second request into the monitor before the creating worker has called `setLastDoneRID` |
| `Network.MissedForEver` | emite-proxies/src/main/java/org/jabber/JabberHTTPBind/JHBServlet.java:226-246 | whoever has missed the bell waits in every continuation, and its request stays open |
| `Network.DrainsUnlessMissed` | emite-proxies/src/main/java/org/jabber/JabberHTTPBind/JHBServlet.java:224-370 | from a reachable state everything can be answered if and only if nobody has missed the bell |
| `Network.DeadlockExactly` | emite-proxies/src/main/java/org/jabber/JabberHTTPBind/JHBServlet.java:500-519 | from the creation of the session on, a run can be brought to an end with everything answered if and only if in it the second request did not enter the monitor before the creating worker marked its rid, and no empty request of a polling session was found too frequent |
| `Network.LostBellDeadlocks` | emite-proxies/src/main/java/org/jabber/JabberHTTPBind/JHBServlet.java:500-519 | such a run: the first response travels, the second request comes to the gate and waits, and the mark rings nobody |
| `Network.AtRestAllForwarded` | emite-proxies/src/main/java/org/jabber/JabberHTTPBind/JHBServlet.java:296-321 | with nothing open, the payloads forwarded are all the payloads issued, in order |
| `BoshServer.ForwardedFromStart` | emite-proxies/src/main/java/org/jabber/JabberHTTPBind/JHBServlet.java:224-370 | in every interleaving of workers, with duplicated, malformed and missing rids and the creating worker among them, the rids whose payload is forwarded are first+1, first+2, ... without gap, repeat or swap |
| `BoshServer.NothingBeyondGap` | emite-proxies/src/main/java/org/jabber/JabberHTTPBind/JHBServlet.java:224-258 | as long as no request with some rid arrives, nothing from a request with a higher one is forwarded |
| `FirstRid.OrderedIfPositive` | emite-proxies/src/main/java/org/jabber/JabberHTTPBind/JHBServlet.java:224-258 | every run forwards in that order if and only if the rid of the creating request is positive |
| `FirstRid.OutOfOrder` | emite-proxies/src/main/java/org/jabber/JabberHTTPBind/JHBServlet.java:224-258 | for every other first rid and every payload a run that breaks the order: `lastDoneRID` starts at 0, so what was sent with rid 1 is written before the creating worker marks its own rid, and for a first rid of 0 twice |
| `BoshServer.ForwardedInOrder` | emite-proxies/src/main/java/org/jabber/JabberHTTPBind/JHBServlet.java:224-370 | from every state of the invariant the log only grows in order, and not at all after the session was closed |
| `BoshServer.StepKeepsOrder` | emite-proxies/src/main/java/org/jabber/JabberHTTPBind/JHBServlet.java:152-382 | every atomic step of a worker or of the janitor keeps the order of forwarding and the exclusion in the monitor, and what was written stays written; how the steps end a session is stated in the `BoshEnding` rows |
| `BoshServer.InsideAlone` | emite-proxies/src/main/java/org/jabber/JabberHTTPBind/JHBServlet.java:224-258 | at most one worker is past the gate, and it is the one whose rid is next |
| `BoshServer.StepKeepsFloor` | emite-proxies/src/main/java/org/jabber/JabberHTTPBind/JHBServlet.java:490-519 | until the creating worker marks its rid, whoever passed the window check has a higher one, and nobody is past the gate |
| `BoshEnding.TerminateIsLast` | emite-proxies/src/main/java/org/jabber/JabberHTTPBind/JHBServlet.java:327-336 | when the turn of a terminating request comes its payload is written and is the last that ever is, in every continuation; the session is then terminated, closed and unregistered, the monitor free, nobody waits, the request is answered, and whoever comes later is told 404 when it looks the session up |
| `BoshEnding.StreamEndIsLast` | emite-proxies/src/main/java/org/jabber/JabberHTTPBind/Session.java:433-436 | the answer during which the XMPP server closes the stream ends the session in the same way: everybody who waits is woken and nothing is written any more |
| `BoshEnding.ThrownOutIsLast` | emite-proxies/src/main/java/org/jabber/JabberHTTPBind/JHBServlet.java:264-321 | so does a wrong key, with 404, and an empty request too soon, with 403; nothing of that request is written |
| `BoshEnding.BreakIsLast` | emite-proxies/src/main/java/org/jabber/JabberHTTPBind/JHBServlet.java:372-378 | so does an IOException; its worker gives the monitor up and its request is answered all the same |
| `BoshEnding.EndsExactly` | emite-proxies/src/main/java/org/jabber/JabberHTTPBind/JHBServlet.java:152-382 | which steps close and unregister a session and which mark it as terminated, exactly |
| `BoshEnding.EndsInRuns` | emite-proxies/src/main/java/org/jabber/JabberHTTPBind/JHBServlet.java:152-382 | in every run a session is closed and unregistered if and only if one of those steps was taken, nobody waits then, and while it is not terminated every worker that is out was answered with 200, or with 400 if its rid is not a number |
| `BoshEnding.GateDecides` | emite-proxies/src/main/java/org/jabber/JabberHTTPBind/JHBServlet.java:241-258 | at the gate a worker enters if its turn has come, is told 404 and rings everybody if the session is terminated, and waits otherwise |
| `BoshEnding.EndedCanFinish` | emite-proxies/src/main/java/org/jabber/JabberHTTPBind/JHBServlet.java:224-378 | whatever run ended the session, all its workers can come to an end, without anything more being written |
| `BoshEnding.RepeatIsResent` | emite-proxies/src/main/java/org/jabber/JabberHTTPBind/JHBServlet.java:184-190 | a request whose rid is cached is answered again at once, whatever the window: the response made for it is marked as aborted and sent |
| `BoshAdmission.CacheOverRuns` | emite-proxies/src/main/java/org/jabber/JabberHTTPBind/Session.java:365-370 | with admission in one step, the cache always holds the at most two highest rids ever admitted, no rid is admitted twice, and the lowest key never falls |
| `BoshAdmission.StepKeepsCache` | emite-proxies/src/main/java/org/jabber/JabberHTTPBind/Session.java:365-370 | each step keeps these facts about the cache |
| `BoshAdmission.EvictionOverRuns` | emite-proxies/src/main/java/org/jabber/JabberHTTPBind/Session.java:365-370 | in runs without a resend, an admission only pushes out responses that were already answered |
| `BoshAdmission.EvictedIsDone` | emite-proxies/src/main/java/org/jabber/JabberHTTPBind/Session.java:365-370 | the same for one admission in a state of the invariant |
| `BoshAdmission.StepKeepsFinish` | emite-proxies/src/main/java/org/jabber/JabberHTTPBind/JHBServlet.java:339-370 | each step keeps the link between done responses and rids up to the last done one |
| `BoshAdmission.StartIsFine` | emite-proxies/src/main/java/org/jabber/JabberHTTPBind/JHBServlet.java:389-519 | both invariants hold when the new session is about to send its first response |
| `BoshWindow.AdmitsExactly` | emite-proxies/src/main/java/org/jabber/JabberHTTPBind/JHBServlet.java:168-221 | in every state: a cached rid is answered again, one below every cached rid or more than two above every one is refused with 404, a third pending request with 403, and every other rid is added |
| `BoshWindow.AtMostTwoAhead` | emite-proxies/src/main/java/org/jabber/JabberHTTPBind/Session.java:561-575 | in every run, however the calls of admission interleave, a rid admitted after the first is at most two above one admitted before it; a request without rid falls through the checks as rid 0, so first rids below -2 need that there is none |
| `BoshWindow.AtMostOneBehind` | emite-proxies/src/main/java/org/jabber/JabberHTTPBind/Session.java:561-575 | with admission in one step, of the rids admitted before it at most one is higher, and none is the same |
| `BoshWindow.TooFarAheadEnds` | emite-proxies/src/main/java/org/jabber/JabberHTTPBind/JHBServlet.java:191-197 | a request more than two above every cached rid is never admitted, in no continuation; its worker is told 404 and the session is terminated, closed and unregistered by then |
| `BoshWindow.TooFarAheadGoes` | emite-proxies/src/main/java/org/jabber/JabberHTTPBind/JHBServlet.java:191-197 | and nothing keeps its worker from that while the monitor is free |
| `BoshWindow.WindowCheck` | emite-proxies/src/main/java/org/jabber/JabberHTTPBind/Session.java:561-575 | the window check taken by itself goes on exactly inside the window |
| `SessionObjects.Session.AddResponse` | emite-proxies/src/main/java/org/jabber/JabberHTTPBind/Session.java:365-370 | after the eviction loop the cache is the old one cut to its highest key, with the new response |
| `SessionObjects.Session.GetResponse` | emite-proxies/src/main/java/org/jabber/JabberHTTPBind/Session.java:626-628 | finds the cached response for a rid, or none |
| `SessionObjects.Session.CheckValidRID` | emite-proxies/src/main/java/org/jabber/JabberHTTPBind/Session.java:561-575 | accepts exactly the rids that are not below every cached one and at most two above some cached one |
| `SessionObjects.Session.NumPendingRequests` | emite-proxies/src/main/java/org/jabber/JabberHTTPBind/Session.java:664-674 | counts exactly the cached responses that are not done |
| `SessionObjects.Session.SetLastDoneRID` | emite-proxies/src/main/java/org/jabber/JabberHTTPBind/Session.java:750-752 | records the last done rid |
| `SessionObjects.Session.Terminate` | emite-proxies/src/main/java/org/jabber/JabberHTTPBind/Session.java:801-816 | ends terminated, closed and unregistered, whatever came before, and wakes everybody who waits |
| `SessionObjects.Session.Admit` | emite-proxies/src/main/java/org/jabber/JabberHTTPBind/JHBServlet.java:168-221 | resend, refusal or a new pending response, each with its exact condition, window and pending count spelled out; refusals change no response |
| `SessionObjects.Response.Send` | emite-proxies/src/main/java/org/jabber/JabberHTTPBind/Response.java:124-139 | a response counts as done once it was written |
| `BoshSession.FirstKey` | emite-proxies/src/main/java/org/jabber/JabberHTTPBind/Session.java:365-370 | is the least key of the cache |
| `BoshSession.LastKey` | emite-proxies/src/main/java/org/jabber/JabberHTTPBind/Session.java:561-575 | is the greatest key of the cache |
| `BoshSession.Truncated` | emite-proxies/src/main/java/org/jabber/JabberHTTPBind/Session.java:365-370 | what the eviction loop leaves: at most one entry, the greatest |
| `BoshSession.AddedKeys` | emite-proxies/src/main/java/org/jabber/JabberHTTPBind/Session.java:365-370 | which keys survive when a response is added |
| `BoshClient.SoundFromConnect` | emite-lib/src/com/calclab/emite/core/client/bosh/XmppBoshConnection.java:155-304 | from `connect` to `disconnect`, with errors, retries, refusals and calls from handlers: the requests tried, accepted by the connector or not, carry consecutive rids, retries repeat accepted ones unchanged, and the stanzas of the requests tried plus those queued are exactly those given, in order; a queued body has the next rid |
| `BoshClient.ConservedUnlessRefused` | emite-lib/src/com/calclab/emite/core/client/bosh/XmppBoshConnection.java:279-304 | until `disconnect`, the stanzas the connector accepted plus those queued are exactly those given, in order, if and only if the connector refused no first transmission that carried a stanza |
| `BoshClient.RefusedIsGone` | emite-lib/src/com/calclab/emite/core/client/bosh/XmppBoshConnection.java:279-304 | a refused first transmission is not outstanding, was not and will not be sent again |
| `BoshClient.RefusedSendLoses` | emite-lib/src/com/calclab/emite/core/client/bosh/XmppBoshConnection.java:155-160 | such an input: on an idle stream the connector throws on the request that carries the packet, and the packet is lost |
| `BoshClient.RidsWithoutGap` | emite-lib/src/com/calclab/emite/core/client/bosh/XmppBoshConnection.java:279-304 | in every run from `connect` to `disconnect`, the rids that reach the connector are consecutive if and only if no refused request is followed by an accepted one |
| `BoshClient.RefusalLeavesGap` | emite-lib/src/com/calclab/emite/core/client/bosh/XmppBoshConnection.java:279-304 | an input with a gap: the connector throws on the second of three requests |
| `BoshClient.GapAfterRefusal` | emite-lib/src/com/calclab/emite/core/client/bosh/XmppBoshConnection.java:279-304 | the list fact behind it |
| `BoshClient.RunsAreSound` | emite-lib/src/com/calclab/emite/core/client/bosh/XmppBoshConnection.java:155-304 | the same from every state of the invariant |
| `BoshClient.ReactSound` | emite-lib/src/com/calclab/emite/core/client/bosh/XmppBoshConnection.java:42-89 | each event keeps rids, retries and the stanzas of tried and queued bodies right |
| `BoshClient.SendBodySound` | emite-lib/src/com/calclab/emite/core/client/bosh/XmppBoshConnection.java:290-304 | flushing the queued body moves its stanzas from queued to tried, whether or not the connector accepts them, and uses up its rid |
| `BoshClient.HandleSound` | emite-lib/src/com/calclab/emite/core/client/bosh/XmppBoshConnection.java:241-259 | dispatching an answer, with sends made by its handlers, keeps every stanza among the tried and the queued ones, once and in order |
| `BoshClient.TerminateRid` | emite-lib/src/com/calclab/emite/core/client/bosh/XmppBoshConnection.java:108-119 | the terminating request continues the rids exactly when no body was queued |
| `BoshClient.DisconnectSkipsRid` | emite-lib/src/com/calclab/emite/core/client/bosh/XmppBoshConnection.java:108-119 | an input on which a rid is skipped: a packet is queued when `disconnect` is called |
| `BoshClient.NoIdleStallFromConnect` | emite-lib/src/com/calclab/emite/core/client/bosh/XmppBoshConnection.java:179-259 | in error-free runs in which `restartStream` is not called on an idle stream, an active, established stream with nothing outstanding has no queued body and a keep-alive armed for its rid |
| `BoshClient.NoIdleStall` | emite-lib/src/com/calclab/emite/core/client/bosh/XmppBoshConnection.java:179-259 | the same from every state of the invariant |
| `BoshClient.KeepAliveSends` | emite-lib/src/com/calclab/emite/core/client/bosh/XmppBoshConnection.java:179-199 | that keep-alive, when it fires, sends a new empty request |
| `BoshClient.RestartKeepsCalm` | emite-lib/src/com/calclab/emite/core/client/bosh/XmppBoshConnection.java:138-144 | a restart asked for outside dispatch leaves the stream awake if and only if the stream is not idle: not active, not established, or with a request outstanding |
| `BoshClient.RestartWhileIdleStalls` | emite-lib/src/com/calclab/emite/core/client/bosh/XmppBoshConnection.java:138-144 | asked for on an idle stream it queues a body that no timer or answer flushes |
| `BoshClient.CounterCountsErrors` | emite-lib/src/com/calclab/emite/core/client/bosh/XmppBoshConnection.java:42-89 | in every run from `connect` to `disconnect`, refusals and retries included, the counter of connections is above the requests that can still be called back by the number of transport errors, so it is right if and only if there was none |
| `BoshClient.ErrorMiscounts` | emite-lib/src/com/calclab/emite/core/client/bosh/XmppBoshConnection.java:42-61 | an input on which the counter is wrong: the transport of the opening request fails |
| `BoshClient.CallsAreRuns` | emite-lib/src/com/calclab/emite/core/client/bosh/XmppBoshConnection.java:108-160 | what handlers call when an event is fired last is the same as these calls made next in the run |
| `BoshClient.WithBody` | emite-lib/src/com/calclab/emite/core/client/bosh/XmppBoshConnection.java:201-211 | a body is queued afterwards; a new one takes the next rid and the sid of the stream, a queued one stays as it is |
| `BoshClient.HandleGrew` | emite-lib/src/com/calclab/emite/core/client/bosh/XmppBoshConnection.java:241-259 | handling an answer with polite handlers only appends requests and keeps the number of connections within the limit |
| `BoshRetry.FailedAreRetried` | emite-lib/src/com/calclab/emite/core/client/bosh/XmppBoshConnection.java:42-89 | over every run from `connect` until it ends, the requests sent again together with those scheduled to be are, one by one, the requests that failed on the active connection (transport error, bad status, or content that is no body), each as often as it failed; and the error counter is the number of failures in a row, at most eight |
| `BoshRetry.GivesUpAtTheNinth` | emite-lib/src/com/calclab/emite/core/client/bosh/XmppBoshConnection.java:42-61 | after every such run, a failure schedules exactly that request again, with the connection still active and no new request sent, unless it is the ninth in a row: that one, and no earlier one, ends the run with a forced terminating request |
| `BoshRetry.RetryIsSent` | emite-lib/src/com/calclab/emite/core/client/bosh/XmppBoshConnection.java:50-58 | a scheduled retry that fires transmits its request whatever the limit on connections, counts it if the connector accepts, and changes nothing else |
| `BoshRetry.ReactOwes` | emite-lib/src/com/calclab/emite/core/client/bosh/XmppBoshConnection.java:42-89 | what each single event adds to the requests owed, and what it makes of the row of failures |
| `BoshCalls.TriedInCallOrder` | emite-lib/src/com/calclab/emite/core/client/bosh/XmppBoshConnection.java:155-259 | over every run from `connect` until it ends, the stanzas in the order in which they were first tried, followed by the queued ones, are the packets of all calls of `send`, by the application and by handlers, in the order of the calls; those of the connection event come before those of the stanzas, and both only for a good answer |
| `BoshCalls.EndsWhen` | emite-lib/src/com/calclab/emite/core/client/bosh/XmppBoshConnection.java:42-119 | after every run that goes on, the next event ends it if and only if it is a call of `disconnect`, a call of `connect` on an inactive connection, the status 404 on an active one, or the ninth error in a row |
| `BoshCalls.EndsWithFarewell` | emite-lib/src/com/calclab/emite/core/client/bosh/XmppBoshConnection.java:64-119 | `disconnect` and the status 404 force out one more request, a terminating one, and leave the connection inactive and without a sid |
| `BoshCalls.TerminatedQuietly` | emite-lib/src/com/calclab/emite/core/client/bosh/XmppBoshConnection.java:241-246 | a terminating answer sends nothing and leaves the connection inactive and without a sid |
| `BoshCalls.NothingNewAfterEnd` | emite-lib/src/com/calclab/emite/core/client/bosh/XmppBoshConnection.java:42-304 | on an ended stream, whatever is sent, answered, fails or fires, no new request goes out and nothing new is scheduled until `connect` or `disconnect` is called |
| `BoshCalls.AnswerSendsOnce` | emite-lib/src/com/calclab/emite/core/client/bosh/XmppBoshConnection.java:179-259 | what the handlers of an answer give goes out in a single request behind what was queued if no other request is open, and is queued otherwise; with nothing to send a keep-alive is armed for the rid |
| `BoshCalls.HeldBack` | emite-lib/src/com/calclab/emite/core/client/bosh/XmppBoshConnection.java:290-304 | during dispatch, and while there are errors, sends only queue |
| `BoshCalls.SendGoesOut` | emite-lib/src/com/calclab/emite/core/client/bosh/XmppBoshConnection.java:155-160 | a packet goes out with its call exactly when the connection is active, is not dispatching, has a request to spare and no error |
| `BoshCalls.PauseGoesOut` | emite-lib/src/com/calclab/emite/core/client/bosh/XmppBoshConnection.java:127-144 | `pause` on an established stream sends what is queued at once, otherwise it does nothing; `restartStream` only marks the queued request |
| `BoshCalls.KeepAliveFires` | emite-lib/src/com/calclab/emite/core/client/bosh/XmppBoshConnection.java:179-199 | a keep-alive that was overtaken by a queued body or another rid does nothing; otherwise an empty body takes the next rid and goes out like any other |
| `BoshCalls.HandlersFollow` | emite-lib/src/com/calclab/emite/core/client/bosh/XmppBoshConnection.java:108-160 | the handlers of the event of a call are called after it and before the next call |
| `BoshCalls.EndByErrorIsTold` | emite-lib/src/com/calclab/emite/core/client/bosh/XmppBoshConnection.java:42-61 | the handlers of the end of the connection are called for a transport error if and only if it ends the connection |
| `BoshCalls.EndByResponseIsTold` | emite-lib/src/com/calclab/emite/core/client/bosh/XmppBoshConnection.java:64-119 | and for a response if and only if it leaves an active connection inactive |
| `BoshCalls.OnlyFirstOpens` | emite-lib/src/com/calclab/emite/core/client/bosh/XmppBoshConnection.java:213-239 | until a run ends exactly the first request is an opening one and none is a terminating one |
| `BoshConnection.XmppBoshConnection.Connect` | emite-lib/src/com/calclab/emite/core/client/bosh/XmppBoshConnection.java:94-105 | updates the fields exactly as the value function that the properties above are about: `connect` |
| `BoshConnection.XmppBoshConnection.Disconnect` | emite-lib/src/com/calclab/emite/core/client/bosh/XmppBoshConnection.java:108-119 | updates the fields exactly as the value function that the properties above are about: `disconnect`, with the calls made by the handlers of its event, nested to any depth |
| `BoshConnection.XmppBoshConnection.Pause` | emite-lib/src/com/calclab/emite/core/client/bosh/XmppBoshConnection.java:127-135 | updates the fields exactly as the value function that the properties above are about: `pause` |
| `BoshConnection.XmppBoshConnection.RestartStream` | emite-lib/src/com/calclab/emite/core/client/bosh/XmppBoshConnection.java:138-144 | updates the fields exactly as the value function that the properties above are about: `restartStream` |
| `BoshConnection.XmppBoshConnection.Send` | emite-lib/src/com/calclab/emite/core/client/bosh/XmppBoshConnection.java:155-160 | updates the fields exactly as the value function that the properties above are about: `send`, with the calls made by the handlers of its event, nested to any depth |
| `BoshConnection.XmppBoshConnection.ContinueConnection` | emite-lib/src/com/calclab/emite/core/client/bosh/XmppBoshConnection.java:179-199 | updates the fields exactly as the value function that the properties above are about: the choice between flushing, arming a keep-alive and waiting |
| `BoshConnection.XmppBoshConnection.CreateBodyIfNeeded` | emite-lib/src/com/calclab/emite/core/client/bosh/XmppBoshConnection.java:201-211 | updates the fields exactly as the value function that the properties above are about: the queued body and its rid |
| `BoshConnection.XmppBoshConnection.HandleResponse` | emite-lib/src/com/calclab/emite/core/client/bosh/XmppBoshConnection.java:241-259 | updates the fields exactly as the value function that the properties above are about: the dispatch of an answer with everything its handlers call, those of the end of the connection included |
| `BoshConnection.XmppBoshConnection.SendRequest` | emite-lib/src/com/calclab/emite/core/client/bosh/XmppBoshConnection.java:279-288 | updates the fields exactly as the value function that the properties above are about: one transmission, accepted or refused by the connector |
| `BoshConnection.XmppBoshConnection.SendBody` | emite-lib/src/com/calclab/emite/core/client/bosh/XmppBoshConnection.java:290-304 | updates the fields exactly as the value function that the properties above are about: the flush of the queued body |
| `BoshConnection.XmppBoshConnection.OnError` | emite-lib/src/com/calclab/emite/core/client/bosh/XmppBoshConnection.java:42-61 | updates the fields exactly as the value function that the properties above are about: a transport error and its retry |
| `BoshConnection.XmppBoshConnection.OnResponseReceived` | emite-lib/src/com/calclab/emite/core/client/bosh/XmppBoshConnection.java:64-89 | updates the fields exactly as the value function that the properties above are about: a response of any status, parsed or not |
| `BoshConnection.XmppBoshConnection.RunTimer` | emite-lib/src/com/calclab/emite/core/client/bosh/XmppBoshConnection.java:179-199 | updates the fields exactly as the value function that the properties above are about: a keep-alive or retry timer |
| `BoshConnection.StreamSettings.GetNextRid` | emite-lib/src/com/calclab/emite/core/client/bosh/StreamSettings.java:52-55 | the next rid is one above the last |
| `Roster.LastPushWins` | emite-lib/src/com/calclab/emite/im/client/roster/XmppRosterLogic.java:242-332 | after one retrieval with distinct JIDs and any pushes that remove only known contacts, a contact is in a named group exactly when its last push listed it, and the object there is the one in the group of all contacts |
| `Roster.PushAgrees` | emite-lib/src/com/calclab/emite/im/client/roster/XmppRosterLogic.java:242-258 | one push keeps that agreement if and only if it does not remove an unknown contact |
| `Roster.UnknownRemovalIsStored` | emite-lib/src/com/calclab/emite/im/client/roster/XmppRosterLogic.java:245-247 | a removal of an unknown contact puts it into the roster |
| `Roster.RetrievalKeepsStale` | emite-lib/src/com/calclab/emite/im/client/roster/XmppRosterLogic.java:197-223 | an input on which a second retrieval leaves a stale membership, with the old object |
| `Roster.RetrievalAgrees` | emite-lib/src/com/calclab/emite/im/client/roster/XmppRosterLogic.java:197-223 | after a retrieval on any index the agreement holds if and only if every membership from before is listed again, since only the group of all contacts is cleared |
| `Roster.PushesAgree` | emite-lib/src/com/calclab/emite/im/client/roster/XmppRosterLogic.java:242-332 | the agreement over any sequence of such pushes |
| `RosterEffects.PushIsSeen` | emite-lib/src/com/calclab/emite/im/client/roster/XmppRosterLogic.java:242-258 | what one push changes and what it leaves, said of every group and every contact |
| `RosterEffects.StoredAllSeen` | emite-lib/src/com/calclab/emite/im/client/roster/XmppRosterLogic.java:205-210 | what storing a list of contacts leaves in every group, JIDs repeated or not |
| `RosterEffects.LastCounts` | emite-lib/src/com/calclab/emite/im/client/roster/XmppRosterLogic.java:205-210 | of several listed items with one JID the last one counts |
| `Roster.EventsTellGroups` | emite-lib/src/com/calclab/emite/im/client/roster/XmppRosterGroupsLogic.java:24-89 | over every run, repeated retrievals included, announcements and removals of each group alternate and their difference tells whether it exists, the group of all contacts is announced once and never removed, and no named group is empty |
| `Roster.StepTells` | emite-lib/src/com/calclab/emite/im/client/roster/XmppRosterGroupsLogic.java:24-89 | one operation that reports each change of the groups once keeps the log telling the truth |
| `Roster.NextNoneEmpty` | emite-lib/src/com/calclab/emite/im/client/roster/XmppRosterLogic.java:260-325 | no operation leaves a named group empty or drops the group of all contacts |
| `Roster.StoredAt` | emite-lib/src/com/calclab/emite/im/client/roster/XmppRosterLogic.java:327-332 | storing an item puts it into the group of all contacts and its listed groups, and nowhere else |
| `Roster.UpdatedAt` | emite-lib/src/com/calclab/emite/im/client/roster/XmppRosterLogic.java:274-325 | an update puts the known object into the newly listed groups and takes it out of the others |
| `Roster.RemovedAt` | emite-lib/src/com/calclab/emite/im/client/roster/XmppRosterLogic.java:260-272 | a removal takes the contact out of every group |
| `Roster.Listed` | emite-lib/src/com/calclab/emite/im/client/roster/RosterItem.java:56-68 | the groups kept from a stanza are exactly the non-empty trimmed names |
| `Roster.TrimCuts` | emite-lib/src/com/calclab/emite/im/client/roster/RosterItem.java:145-152 | trimming takes off exactly blanks at both ends |
| `Roster.Trim` | emite-lib/src/com/calclab/emite/im/client/roster/RosterItem.java:145-152 | nothing blank is left at either end |
| `RosterObjects.XmppRoster.HandleItemChanged` | emite-lib/src/com/calclab/emite/im/client/roster/XmppRosterLogic.java:242-258 | a push with subscription `remove` for a known contact takes it out of every group and drops named groups left empty; any other push leaves the contact, as the object known before or else the new one, in the group of all contacts and in exactly the named groups it lists, with the pushed name and subscription; other contacts are untouched; each group that appears or disappears is reported once, so the events fired from the beginning keep telling which groups exist, and none is empty |
| `RosterObjects.XmppRoster.RosterPushed` | emite-lib/src/com/calclab/emite/im/client/roster/XmppRosterLogic.java:107-121 | the loop over the items of a push: whatever is listed, if the index agreed with the last pushes before and only known contacts are removed, then afterwards each contact is in exactly the groups of its last push, or in none if its subscription was `remove` |
| `RosterObjects.XmppRoster.RosterRetrieved` | emite-lib/src/com/calclab/emite/im/client/roster/XmppRosterLogic.java:197-223 | after the answer to a roster request the group of all contacts holds exactly those listed, each as the last object listed for it, and the named groups what they held and what is listed in them; events as above |
| `RosterObjects.XmppRoster.constructor` | emite-lib/src/com/calclab/emite/im/client/roster/XmppRosterGroupsLogic.java:14-22 | a new roster has no groups, no events, and tells the truth |
| `RosterObjects.XmppRoster.UpdateExistingItem` | emite-lib/src/com/calclab/emite/im/client/roster/XmppRosterLogic.java:274-325 | the known object takes over name, subscription and groups; the index and the events follow; the list of its own groups names exactly the new ones if and only if no two neighbouring old ones had to go |
| `RosterObjects.XmppRoster.RemoveItem` | emite-lib/src/com/calclab/emite/im/client/roster/XmppRosterLogic.java:260-272 | the contact leaves every group and emptied named groups disappear, each with one event |
| `RosterObjects.XmppRoster.StoreItem` | emite-lib/src/com/calclab/emite/im/client/roster/XmppRosterLogic.java:327-332 | the new object is shared by the group of all contacts and its named groups |
| `RosterObjects.XmppRoster.AddToGroup` | emite-lib/src/com/calclab/emite/im/client/roster/XmppRosterGroupsLogic.java:32-38 | a missing group is made and announced before the item goes in |
| `RosterObjects.XmppRoster.AddGroup` | emite-lib/src/com/calclab/emite/im/client/roster/XmppRosterGroupsLogic.java:24-30 | the group is new and announced; without a name it is the one of all contacts |
| `RosterObjects.XmppRoster.RemoveGroup` | emite-lib/src/com/calclab/emite/im/client/roster/XmppRosterGroupsLogic.java:84-89 | the group is gone, with one event |
| `RosterObjects.XmppRoster.ClearGroupAll` | emite-lib/src/com/calclab/emite/im/client/roster/XmppRosterGroupsLogic.java:40-42 | only the group of all contacts is emptied |
| `RosterObjects.XmppRoster.GetItemByJID` | emite-lib/src/com/calclab/emite/im/client/roster/XmppRosterGroupsLogic.java:59-61 | looks a contact up in the group of all contacts |
| `RosterObjects.XmppRoster.WeedOut` | emite-lib/src/com/calclab/emite/im/client/roster/XmppRosterLogic.java:281-286 | the index-based loop that removes from the list it goes over |
| `RosterObjects.WeedingPassesOverNeighbours` | emite-lib/src/com/calclab/emite/im/client/roster/XmppRosterLogic.java:281-286 | that loop leaves a name that is not among the new ones if and only if two neighbouring entries are not among them, for all lists, duplicates included |
| `RosterObjects.OwnListFollows` | emite-lib/src/com/calclab/emite/im/client/roster/XmppRosterLogic.java:281-295 | after both loops the item lists exactly the new groups if and only if there was no such pair |
| `RosterObjects.WeedingPassesOver` | emite-lib/src/com/calclab/emite/im/client/roster/XmppRosterLogic.java:281-286 | the smallest such list: of two stale names the second stays |
| `RosterObjects.RosterItem.AddToGroup` | emite-lib/src/com/calclab/emite/im/client/roster/RosterItem.java:145-152 | blank and missing names are dropped, others trimmed |
| `RosterObjects.RosterItem.RemoveFromGroup` | emite-lib/src/com/calclab/emite/im/client/roster/RosterItem.java:259-261 | takes out the first occurrence, and tells whether there was one |
| `RosterObjects.RosterGroup.Add` | emite-lib/src/com/calclab/emite/im/client/roster/RosterGroup.java:52-55 | an item with the same JID is replaced |
| `RosterObjects.RosterGroup.Remove` | emite-lib/src/com/calclab/emite/im/client/roster/RosterGroup.java:181-187 | the contact is gone |
| `RosterObjects.RosterGroup.Clear` | emite-lib/src/com/calclab/emite/im/client/roster/RosterGroup.java:189-191 | nothing is left |
| `Treemap.SquarifyTiles` | emite/seecode/jit/Treemap.js:1 | with the box at top 0 and positive areas adding up to its area, the rectangles lie in the box, cover it and do not overlap, and each has the area of its child |
| `Treemap.RowsCover` | emite/seecode/jit/Treemap.js:1 | every point of the box is in exactly one rectangle, every other point in none, because the side is always the one the orientation names |
| `Treemap.AllTilesAreas` | emite/seecode/jit/Treemap.js:1 | each rectangle has the area of its child |
| `Treemap.RowsInOrder` | emite/seecode/jit/Treemap.js:1 | the rows one after the other are the children in order |
| `Treemap.RowsAreGreedy` | emite/seecode/jit/Treemap.js:1 | every row closed early would get a strictly worse ratio with the next child |
| `TreemapRows.RowsAreFixed` | emite/seecode/jit/Treemap.js:1 | the rows are the only ones for the children in order in which every child was worth taking (the worst ratio with it is not above the one without), every row but the last was closed because the next child was not, and each later row runs along the shorter side of what is left |
| `TreemapRows.RowsFollow` | emite/seecode/jit/Treemap.js:1 | the rows of `squarify` are of this kind |
| `TreemapRows.ChildrenAreWorthTaking` | emite/seecode/jit/Treemap.js:1 | for every row and every child after its first (in the first row, after those it starts with): the worst ratio of the children before it is at least that with it |
| `TreemapRows.LaterRowsAreShort` | emite/seecode/jit/Treemap.js:1 | every row after the first runs along a side that is at most the width and at most the height of its box |
| `TreemapRows.RowStands` | emite/seecode/jit/Treemap.js:1 | in one orientation a row is built up from the bottom at the left of the box, in the other it lies at the bottom from left to right, and the tiles touch |
| `Treemap.WorstIsMaxAspect` | emite/seecode/jit/Treemap.js:1 | `worstAspectRatio` is the largest aspect ratio among the exact tiles of the row, wherever it is laid out |
| `Treemap.RemainingReady` | emite/seecode/jit/Treemap.js:1 | the box left over has the area of the children left, and its minimum side is the one the new orientation names |
| `Treemap.Rows` | emite/seecode/jit/Treemap.js:1 | every row laid out can be drawn; the recursion ends, on row plus rest and then rest |
| `TreemapLayout.Squarify` | emite/seecode/jit/Treemap.js:1 | the recursion over objects writes exactly the rectangles of the rows |
| `TreemapLayout.LayoutRow` | emite/seecode/jit/Treemap.js:1 | writes the rectangles of one row and returns the box left over and its minimum side, with the orientation it leaves |
| `TreemapLayout.LayoutLast` | emite/seecode/jit/Treemap.js:1 | the last child gets the whole box |
| `TreemapLayout.WorstAspectRatio` | emite/seecode/jit/Treemap.js:1 | the accumulating loop computes the ratio the properties are about |
| `TreemapLayout.ProcessChildrenLayout` | emite/seecode/jit/Treemap.js:1 | whatever the orientation found, the children end up tiling the box, each with an area in proportion to its value, in the rectangles of the rows that start with the first child along the side the orientation names |
| `Graph.VisitsTheConnected` | emite/seecode/jit/RGraph.js:1 | on every finite graph the traversal ends and visits exactly the nodes connected to its root |
| `Graph.StepIsCloser` | emite/seecode/jit/RGraph.js:1 | why it ends although a node can be queued many times: each turn flags a new node or moves the first unflagged entry nearer |
| `Graph.TraversalOfLoadedTree` | emite/seecode/jit/RGraph.js:1 | on the graph of a loaded tree, from any chosen root, every node is visited once and its depth is its distance from that root |
| `Graph.TraversalOfTree` | emite/seecode/jit/RGraph.js:1 | the same for every graph that is a tree from each of its nodes |
| `Graph.LoadedIsTree` | emite/seecode/jit/RGraph.js:1 | loading a tree with distinct identifiers gives such a graph, on exactly its identifiers |
| `Graph.LoadedEdges` | emite/seecode/jit/RGraph.js:1 | two nodes are adjacent after loading exactly when they were before or one is a child of the other |
| `Graph.AddLeaf` | emite/seecode/jit/RGraph.js:1 | linking a new node keeps the graph a tree whichever node is the root |
| `Graph.LonelyRoot` | emite/seecode/jit/RGraph.js:1 | a tree without children leaves the graph without its root |
| `BreadthFirst.VisitsOnceOnTrees` | emite/seecode/jit/RGraph.js:1 | on every graph, from every root, no node is visited twice if and only if the nodes connected to the root form a tree |
| `BreadthFirst.DepthsAreDistancesUnlessFlat` | emite/seecode/jit/RGraph.js:1 | on every graph, from every root, the depths are the distances from the root if and only if no two different neighbours are equally far from it |
| `BreadthFirst.TraversalOfAnyLoadedTree` | emite/seecode/jit/RGraph.js:1 | both conditions on the graph of every loaded tree, with repeated identifiers or not |
| `BreadthFirst.QueuedIsVisited` | emite/seecode/jit/RGraph.js:1 | whatever is queued is visited, as often as it is queued |
| `TraversalOrder.VisitsInQueueOrder` | emite/seecode/jit/RGraph.js:1 | what is queued is visited next, in the order of the queue |
| `TraversalOrder.RootThenNeighbours` | emite/seecode/jit/RGraph.js:1 | the root is visited first and then its neighbours as they are listed |
| `TraversalOrder.NearerFirst` | emite/seecode/jit/RGraph.js:1 | when no two neighbours are equally far from the root, as in a tree, nearer nodes are visited first |
| `TraversalOrder.LoadedInOrder` | emite/seecode/jit/RGraph.js:1 | in the graph of a tree with distinct identifiers the root lists its children in order, and every other node its parent and then its children in order |
| `TraversalOrder.LoadsInOrder` | emite/seecode/jit/RGraph.js:1 | the same below a node of any graph; the other lists stay as they were |
| `BreadthFirst.LoadedIsUndirected` | emite/seecode/jit/RGraph.js:1 | whatever tree is loaded, neighbours know each other and are listed once |
| `BreadthFirst.TriangleIsLoaded` | emite/seecode/jit/RGraph.js:1 | a tree with a repeated identifier is loaded as a triangle |
| `BreadthFirst.TriangleVisitsTwice` | emite/seecode/jit/RGraph.js:1 | on a triangle a node is visited twice with a depth that is not its distance |
| `GraphObjects.NodeGraph.EachBFS` | emite/seecode/jit/RGraph.js:1 | the loop over node objects ends with the flags, depths and calls that the properties are about |
| `GraphObjects.NodeGraph.LoadTree` | emite/seecode/jit/RGraph.js:1 | the recursion over a tree leaves the adjacency lists that the properties are about |
| `GraphObjects.NodeGraph.AddAdjacence` | emite/seecode/jit/RGraph.js:1 | both nodes exist afterwards and are linked both ways, once |
| `GraphObjects.Node.AdjacentTo` | emite/seecode/jit/RGraph.js:1 | true exactly when the node is in the list |
| `Moebius.MoveStaysInside` | emite/seecode/jit/Hypertree.js:1 | a move by a point of the disc keeps every point of the disc inside |
| `Moebius.MoveBack` | emite/seecode/jit/Hypertree.js:1 | the move by the opposite point undoes it |
| `Moebius.MoveToOrigin` | emite/seecode/jit/Hypertree.js:1 | the move by a point takes that point to the origin |
| `Moebius.MoveIsQuotient` | emite/seecode/jit/Hypertree.js:1 | the division by conjugate and squared norm is complex division |
| `Moebius.DenominatorNorm` | emite/seecode/jit/Hypertree.js:1 | the identity that keeps the denominator away from zero |
| `Hypertree.LayoutInDisc` | emite/seecode/jit/Hypertree.js:1 | after `compute`, from any root of a tree, the root is in the middle, all nodes are in the disc, and every other node is seen from its parent at the spot chosen for it |
| `Hypertree.LayoutOfTree` | emite/seecode/jit/Hypertree.js:1 | the same for any moves that satisfy the two laws used |
| `Hypertree.DiscIsLawful` | emite/seecode/jit/Hypertree.js:1 | the moves of the program satisfy them |
| `Hypertree.PlaceAroundOnlyPlaces` | emite/seecode/jit/Hypertree.js:1 | the move forth and back of one visit leaves every node where it was, except those it places |
| `Hypertree.Subnodes` | emite/seecode/jit/Hypertree.js:1 | exactly the neighbours with a greater depth |
| `Hypertree.View.MoebiusTransformation` | emite/seecode/jit/Hypertree.js:1 | every node is moved |
| `Hypertree.View.Visited` | emite/seecode/jit/Hypertree.js:1 | the action on one visited node, with its two moves |
| `Hypertree.View.Compute` | emite/seecode/jit/Hypertree.js:1 | on a tree, the two traversals over node objects and what is done to the nodes they visit leave the depths and positions that the properties are about |
| `Hypertree.ComputedIsLaidOut` | emite/seecode/jit/Hypertree.js:1 | these positions lay the tree out: the root in the middle, every other node seen from its parent at its spot |
| `Hypertree.ComputedMeasures` | emite/seecode/jit/Hypertree.js:1 | and the depths it leaves are the distances from the root, whatever they were before |
| `Hypertree.View.ComputePositions` | emite/seecode/jit/Hypertree.js:1 | the positions after all visits are those the properties are about |
| `PacketTree.FirstInLevelOrder` | emite-lib/src/com/calclab/emite/core/client/packet/AbstractPacket.java:57-115 | the search returns the first match in level order, the packet itself included, and nothing exactly when nothing in the tree matches |
| `PacketTree.SearchFinds` | emite-lib/src/com/calclab/emite/core/client/packet/AbstractPacket.java:105-115 | the same for every queue in level order that has missed nothing |
| `PacketTree.RestIsSmaller` | emite-lib/src/com/calclab/emite/core/client/packet/AbstractPacket.java:105-115 | the total size of the queued trees falls by one at each turn |
| `PacketTree.OnlyOneFirst` | emite-lib/src/com/calclab/emite/core/client/packet/AbstractPacket.java:57-61 | there is only one first match |
| `PacketObjects.Bfs` | emite-lib/src/com/calclab/emite/core/client/packet/AbstractPacket.java:105-115 | the recursion that polls and extends one shared queue returns the object at that place |
| `PacketObjects.Packet.GetFirstChildInDeep` | emite-lib/src/com/calclab/emite/core/client/packet/AbstractPacket.java:57-61 | returns the object of the first match, or the empty packet |
| `PacketText.PrintedIsReadable` | emite-lib/src/com/calclab/emite/core/client/packet/PacketRenderer.java:37-66 | a reader of the printed form recovers name, non-null attributes, and unescaped text or children, in any attribute order |
| `PacketText.PrintedDetermines` | emite-lib/src/com/calclab/emite/core/client/packet/PacketRenderer.java:37-66 | packets that print alike are alike, and equal when built with setText and without null attributes |
| `PacketText.TextHidesTheRest` | emite-lib/src/com/calclab/emite/core/client/packet/PacketRenderer.java:50-65 | a packet with a text child is printed with its first text alone, whatever else it holds; any other one with all its children in order |
| `PacketText.FirstTextCounts` | emite-lib/src/com/calclab/emite/core/client/packet/Packet.java:94-101 | the text of a packet is that of its first text child, unescaped |
| `PacketText.PrintedForm` | emite-lib/src/com/calclab/emite/core/client/packet/PacketRenderer.java:37-66 | an example of the text itself: a packet with an attribute, a child with a text and an empty child |
| `PacketText.ReadsDoc` | emite-lib/src/com/calclab/emite/core/client/packet/PacketRenderer.java:37-66 | reading back what was printed, followed by anything, gives the same document and the rest |
| `PacketText.SetTextGetText` | emite-lib/src/com/calclab/emite/core/client/packet/Packet.java:94-116 | the text read is the text set if and only if it contains none of the five entities |
| `PacketText.SeenIsAll` | emite-lib/src/com/calclab/emite/core/client/packet/Packet.java:94-116 | for packets built as usual nothing is lost in print |
| `PacketObjects.ToString` | emite-lib/src/com/calclab/emite/core/client/packet/PacketRenderer.java:31-66 | the recursive printer produces a printed form of the packet |
| `PacketObjects.Render` | emite-lib/src/com/calclab/emite/core/client/packet/PacketRenderer.java:37-66 | it appends the printed form to the buffer, each attribute once |
| `PacketObjects.RenderAttributes` | emite-lib/src/com/calclab/emite/core/client/packet/PacketRenderer.java:41-48 | the non-null attributes, each once, in the order the map lists them |
| `PacketObjects.Packet.GetText` | emite-lib/src/com/calclab/emite/core/client/packet/Packet.java:94-101 | the first text child, unescaped |
| `PacketObjects.Packet.SetText` | emite-lib/src/com/calclab/emite/core/client/packet/Packet.java:111-116 | all children are replaced by one text, or by nothing |
| `PacketObjects.Packet.SetAttribute` | emite-lib/src/com/calclab/emite/core/client/packet/Packet.java:107-109 | one attribute changes |
| `PacketObjects.Packet.AddChild` | emite-lib/src/com/calclab/emite/core/client/packet/Packet.java:48-51 | the child comes last |
| `PacketObjects.Packet.AddNewChild` | emite-lib/src/com/calclab/emite/core/client/packet/Packet.java:57-62 | a new packet with that name and namespace comes last |
| `PacketObjects.Packet.RemoveChild` | emite-lib/src/com/calclab/emite/core/client/packet/Packet.java:103-105 | the first occurrence of the object goes, and the result tells whether there was one |
| `TextUtils.EscapeIsOnePass` | emite-lib/src/com/calclab/emite/core/client/packet/TextUtils.java:65-85 | the five successive replacements are one substitution character by character |
| `TextCodes.EscapeThere` | emite-lib/src/com/calclab/emite/core/client/packet/TextUtils.java:65-85 | the five codes: wherever a special character stands its code takes its place, and the text around it is escaped by itself |
| `TextUtils.EscapeInjective` | emite-lib/src/com/calclab/emite/core/client/packet/TextUtils.java:65-85 | different texts have different escaped forms |
| `TextUtils.EscapeHides` | emite-lib/src/com/calclab/emite/core/client/packet/TextUtils.java:65-85 | escaped text contains no angle bracket and no quote |
| `TextUtils.UnescapeEscape` | emite-lib/src/com/calclab/emite/core/client/packet/TextUtils.java:91-111 | unescaping an escaped text runs the last four replacements on the text itself |
| `TextUtils.RoundTrip` | emite-lib/src/com/calclab/emite/core/client/packet/TextUtils.java:65-111 | unescaping gives the text back if and only if it contains none of the four literal entities of angle brackets and quotes |
| `TextUtils.EntityIsSwallowed` | emite-lib/src/com/calclab/emite/core/client/packet/TextUtils.java:65-111 | an input that does not come back: a text that speaks of an entity |
| `TextUtils.UnescapeKeeps` | emite-lib/src/com/calclab/emite/core/client/packet/TextUtils.java:91-111 | unescaping changes a text if and only if one of the five entities occurs in it |
| `SerializableMap.RoundTrip` | emite-lib/src/com/calclab/emite/browser/client/SerializableMap.java:33-58 | for every order of keys, restoring a serialized map gives it back if and only if it is not empty, its keys are not empty and have no # after their first character, and its values are not null and have no # |
| `SerializableMap.NullBecomesText` | emite-lib/src/com/calclab/emite/browser/client/SerializableMap.java:33-58 | a null value comes back as the text "null", the rest as it was |
| `SerializableMap.TextOfTwo` | emite-lib/src/com/calclab/emite/browser/client/SerializableMap.java:52-58 | an example of the text, with a null value |
| `SerializableMap.ParsedIsClean` | emite-lib/src/com/calclab/emite/browser/client/SerializableMap.java:33-50 | whatever the text, the parser only produces such maps |
| `SerializableMap.Serialize` | emite-lib/src/com/calclab/emite/browser/client/SerializableMap.java:52-58 | the loop writes every entry once, in some order of the keys |
| `SerializableMap.Restore` | emite-lib/src/com/calclab/emite/browser/client/SerializableMap.java:33-50 | the do-while loop ends, because its position strictly grows, with the map of the entries found, or fails on a missing delimiter |
| `SerializableMap.Turn` | emite-lib/src/com/calclab/emite/browser/client/SerializableMap.java:38-47 | each turn moves the position forward, inside the text |

## Left out

- Server: sockets, DNS, XML parsing and stream regular expressions, TLS and thread sleeps; what the XMPP server sends, and when, is arbitrary. STARTTLS replaces the lock object in mid-session and is not part of the model.
- Server: key sequences are reduced to whether the check fails, which it may at any time when a session is keyed.
- Server: unexpected runtime exceptions in a worker, and the second copy of the servlet under emite/src.
- BoshAdmission.CacheOverRuns: takes look-up, window check, pending check and insertion of one request as one step, and requests that carry a rid; run by several workers at once these four calls can be interleaved, and then the order of forwarding (`BoshServer`), the upper end of the rid window (`BoshWindow.AtMostTwoAhead`), what ends a session (`BoshEnding`) and, for a well-behaved client, acceptance (`Network`) are proved.
- BoshAdmission.EvictionOverRuns: has no resends, since a resend marks an unanswered response as done.
- Client: packets and bodies are values in `BoshClient`; the tree of packets is modelled on its own. Error and retry events are delivered to handlers that do not call back into the connection; handlers of stanzas may call anything.
- BoshClient.NoIdleStallFromConnect: error-free runs in which `restartStream` is not called on an idle stream; `RestartKeepsCalm` shows that this is exactly what it takes.
- Client: `resume`, and asking for a pause is modelled without the length of the pause.
- EndToEnd.EndToEndOrder: starts when the new session is about to send its first response, from a stream whose rid is positive, and covers error-free runs whose handlers do not disconnect or pause; in `Can` a packet waits for the sid, which `AddressedExactly` shows to be what it takes. An error status for a client that is thrown out is not delivered to it.
- Client: replies left over from an earlier `connect`; every client theorem speaks of one connect.
- Roster: presence, subscription states other than removal, events of single items, and requests to the server. Names of groups are values; JIDs are bare and compared for equality.
- Roster.LastPushWins: is about the group index; the item's own list of groups can keep stale names.
- Treemap.SquarifyTiles: areas and lengths are exact reals; pixel rounding, the sort of the children (the theorems hold for any order), DOM boxes and the recursion into each child's own box are left out.
- Treemap.WorstIsMaxAspect: areas are at most Number.MAX_VALUE, as every number of the program is.
- Hypertree.View.Compute: on trees, where a second traversal does not change the depths; what is done to the visited nodes comes after each traversal instead of during it.
- Hypertree.View.ComputePositions: is given the visits of a traversal; `Compute` makes them.
- Server: the container may hold back a response until the worker that wrote it returns; the model does not rely on that, so the response of the creating request travels before its rid is marked.
- Network.NeverRejected: for positive first rids, as the emite client draws them (StreamSettings.java:33), in a session without key sequence that nobody expires and whose stream to the XMPP server stays up; the other Network and EndToEnd rows assume the same.
- Network.AliveUnlessPolling: has no clock; once an empty request was let through, the next one may be found too frequent or not, however much time is between them.
- Network.MissedForEver: `sock.wait()` returns only when notified; Java also permits it to return for no reason, which would let such a request through.
- Graph and Hypertree: drawing, animation and angle computation; the angle of a node is a given spot on its circle, polar coordinates are exact, and one of the position properties of a node stands for both.
- PacketObjects.ToString: the buffer is a string passed along, and packets whose name is null are text packets only.
- PacketText.PrintedIsReadable: names and keys are plain, so they contain no blank, slash, equals sign, quote, ampersand or angle bracket.
- Packets: a packet printed with a text child shows its text alone; elements beside a text are not recovered, as they are not printed.
- Everything else in the repository: sessions, SASL, multi-user chat, widgets and wiring, which carry no property of this kind.
