# A verified model of the NTunl tunnel protocol

NTunl exposes a local web service under a public subdomain. A client program keeps one
WebSocket connection to the host; the host gives it a subdomain, forwards each HTTP request
for that name over the connection under a fresh conversation id, and hands the answer that
comes back under the same id to the waiting caller. Many callers, connections and clients
run at once, answers come out of order, and timeouts, cancellations, failed writes and
dropped connections may happen at any moment.

This project models that system in Dafny and proves what it is meant to guarantee. Run
`dafny verify dfyconfig.toml` here to verify all of it.

## How it is put together

Three parts of the system are transition systems: one step is one critical section, one
channel operation or one message operation of one goroutine, steps of all goroutines
interleave freely, and the theorems speak of every reachable state or every run.

- `Lease.dfy`: subdomain leases. Any number of connection handlers reserve, publish and give
  back names. `Allocation.dfy` states the policy by which a name is chosen.
- `Conversations.dfy`: the conversation multiplexer, from the caller's registration to the
  recorded request, with read pumps, the client program and a network that may cut a
  connection and lose any tail of what was in flight. `ConversationInvariants.dfy`,
  `Broadcast.dfy`, `Requests.dfy`, `Authenticity.dfy` and `RequestCounts.dfy` each hold one
  invariant and its proof; `ConversationTheorems.dfy` holds what is true of every reachable
  state, `Progress.dfy` what can still happen from it, and `History.dfy` and `Messages.dfy` what
  a run leaves behind, told from its steps alone.
- `Tunnel.dfy`: leases, routing and conversations together, from Host header to response.
- `ClientServe.dfy`: the client's read loop, its slots and its drain.
- `HostLocks.dfy`: every routine of the host as a list of lock and channel operations and of
  accesses to shared data, and a machine that runs any number of them.

The remaining code is written in the source's own form, as classes and loops proved against
functions: `TunnelHost.dfy` (the host's maps and the code run over them), `HttpServer.dfy`
(routing and the header filter), `ClientHandler.dfy` (the response and its rewriting) and
`LegacyFrame.dfy` (the binary frame of the original implementation). The classes promise the
functions of `HostMaps.dfy` and `RecentWindow.dfy`, and the transition systems take the same
functions as their steps.

`Ascii.dfy`, `Protocol.dfy` and `Sums.dfy` hold what the others share.

Where what is proved needs something of the environment:

- Conversation ids never repeat (`uuid.NewString`); a `Begin` step takes an id not yet issued.
- `Conversations.Inject` puts an arbitrary message on a connection, at any moment. All results
  hold with it. The two about whose response a call returns (`NoCrossedWires`,
  `ServedByTheNameHolder`) need one thing more: that no step injected that very response under
  that very call's id. The read pump does not check who answers, and
  `Progress.ForgedAnswerIsReturned` is a run in which such an answer is returned although
  `handle` never ran.
- `Progress.dfy` says which steps are possible; that a goroutine waiting for a lock gets it is
  the subject of `HostLocks.dfy`.
- `Call.token`, `Call.fate`, `issued`, `log` and `events` are history: no guard reads them but
  the freshness of ids. `History.dfy` says what `log` and `events` hold after a run.

## Where code and documentation differ

- The comments at `internal/host/tunnel.go:136` and `:185-186`, and
  `plans/auth-and-portal.md:3-4`, promise a random name when the requested one is taken; the
  code refuses the connection (`:215-218`). `Allocation.FallbackIsMissing` is a case,
  `Allocation.FallbackOnlyWithoutRequest` says exactly when the promise is kept.
- The advertised URL (`internal/host/tunnel.go:169`) does not lead back to a client whose
  requested name has a dot in it or is `localhost` or `192`; `HttpServer.DottedNameIsLost` and
  `HttpServer.LocalNameIsShared` are cases, `HttpServer.AdvertisedUrlRoutesBack` gives the exact
  condition.
- A blacklist entry for `Host` has no effect, since `Host` is set after filtering
  (`internal/host/httpserver.go:164-167`); `HttpServer.BlockedHostIsForwarded` is the case,
  `HttpServer.FilterRefinesBlacklist` covers all entries.
- `rewriteBody` is to recompress "with the original encoding" (`internal/client/handler.go:205-206`),
  but knows only `gzip` and `br`. The browser's Accept-Encoding is forwarded, so an upstream may
  answer in another coding, a list of codings or `GZIP`; the replacement is then applied to the
  coded bytes. `ClientHandler.UnknownCodingIsCorrupted` is a case,
  `ClientHandler.RewritingCommutesWithCoding` says exactly when rewriting is right.
- If re-encoding a rewritten body failed, the decoded body would be left under the old
  headers (`internal/client/handler.go:215-230`);
  `ClientHandler.LengthStaysRightUnlessEncoderFails` says when the declared length is wrong.

## Model

| member | source | states |
|---|---|---|
| Tunnel.ServedByTheNameHolder | internal/host/httpserver.go:78-119 | end to end, in every run: a response returned by a call was produced by `handle` on that very request, at the connection of one handler and of no other; an earlier step of the run looked the call's Host header up and found that handler, which at that moment was live and the one holder of the name, ignoring case (or any live one, for a local label); whatever clients send but that very answer |
| Tunnel.LookedUpCanBeForwarded | internal/host/httpserver.go:114 | what was looked up can be forwarded to later, even once the name has been given back |
| Tunnel.HostHeaderCanBeAnswered | internal/host/httpserver.go:78-119 | whenever a Host header leads to a handler whose connection is open, a request for it under a fresh id can be looked up, forwarded and come back with any response `handle` makes |
| Tunnel.ConnectionsBearTheirUsers | internal/host/tunnel.go:151-161 | a handler's connection bears a user exactly when that user went live on it |
| Tunnel.RowsBearTheirUsers | internal/host/tunnel.go:322-325 | every row of the portal stands under the user who went live on the handler that its request was forwarded to |
| Tunnel.NameOutlivesPump | internal/host/tunnel.go:251-292 | a published handler keeps its name, and nobody else holds it in any letter case, until its read pump has ended |
| Tunnel.CutNameComesFree | internal/host/tunnel.go:251-292 | once the connection of a live handler is cut, its read pump can end and give the name back, and then it is free |
| ConversationTheorems.NoCrossedWires | internal/host/tunnel.go:302-337 | a returned response is what the only run of `handle` for that call's id produced, for that call's request, on the addressed connection, whatever peers send but that very response under that very id |
| Progress.ForgedAnswerIsReturned | internal/host/tunnel.go:275-283 | a run in which a forged answer under a call's own id is returned although `handle` never ran |
| ConversationTheorems.TokenIsInOnePlace | internal/host/tunnel.go:275-283 | against any messages, the right to send on a call's channel is in exactly one of five places, so each channel is sent on at most once ever |
| ConversationTheorems.ReadPumpNeverBlocks | internal/host/tunnel.go:281-283 | a read pump about to send on a channel always finds room, whatever duplicates or forgeries arrived |
| ConversationTheorems.PendingIsInProgress | internal/host/tunnel.go:309-336 | every id in `pending` is that of a registered call that has not returned |
| ConversationTheorems.NothingLeaks | internal/host/tunnel.go:314-336 | with no call in progress `pending` is empty, even after drops in mid-request |
| ConversationTheorems.EndedCallNeverReturnsToPending | internal/host/tunnel.go:314-336 | once a call has returned its id is out of `pending`, and no continuation of the run brings it back |
| Progress.CallerCanAlwaysGoOn | internal/host/tunnel.go:302-337 | from every reachable state the caller's own steps alone, at worst a failing write or the timeout, bring its call to an end |
| Progress.CallCanFailWith | internal/host/tunnel.go:314-336 | a write may fail, and a waiting call may time out or be cancelled, each ending in its own error |
| Progress.CutPumpCanEnd | internal/host/tunnel.go:251-258 | from every reachable state the read pump of a cut connection can come to its end by itself |
| Progress.HeardCanBeReturned | internal/host/tunnel.go:275-325 | once an answer to a waiting call was routed, the read pump that took it and the caller are all it takes to return and record it |
| Progress.AnyResponseCanBeReturned | internal/host/tunnel.go:302-325 | from every reachable state, whatever else is queued on its open connection, a call not yet written and not yet answered can come back with any response `handle` makes, without an error, a timeout or a forgery on the way |
| Progress.UnwrittenIsUnanswered | internal/client/handler.go:160-164 | an answer does not precede its request: with none forged under its id, a call not yet written has no answer anywhere |
| ConversationTheorems.AtMostOneRun | internal/client/tunnel.go:130-164 | two runs of `handle` never share a conversation id, and no request under way repeats one already run, across losses and reconnects |
| ConversationTheorems.ReturnsFirstAnswer | internal/host/tunnel.go:321-325 | a call returns the first response with its id, in lock order, after its registration and before any withdrawal |
| ConversationTheorems.PendingMeansListening | internal/host/tunnel.go:275-280 | at every moment an id is in the map exactly when the broadcast form has a waiter listening for it |
| ConversationTheorems.RequestCountsAreConserved | internal/host/tunnel.go:322-325 | per user, counters of all connections past and present equal the rows recorded plus the callers between the two steps, and rows equal successful calls |
| ConversationTheorems.CounterIsItsCalls | internal/host/tunnel.go:323 | each connection's own counter is the number of calls addressed to it that were answered: recorded, or about to be |
| ConversationTheorems.PortalShowsNewest | internal/host/tunnel.go:421-430 | in every reachable state the portal shows the newest rows of the user's unbounded log, newest first, as many as asked for but at most 100 |
| ConversationTheorems.RowsAreSuccessfulCalls | internal/host/tunnel.go:324 | every recorded row shows the user, verb, path and status of a call that returned a response |
| History.ConnectionsAreTheirUsers | internal/host/tunnel.go:151-161 | the connections of a run are its connect steps, in order, each with the user who connected |
| History.CallsAreTheirBegins | internal/host/tunnel.go:302-312 | the calls of a run are its begin steps, in order, with their ids, addressees and requests, each for the user who connected its addressee |
| History.RowsAreTheirLogs | internal/host/tunnel.go:322-325 | the rows of a run are its record steps, in order: the time of the step, the verb, path and status of the call, and the user who connected the tunnel it went over |
| History.ErrorIsItsCause | internal/host/tunnel.go:314-336 | a call fails with an error exactly when its write failed, its timer fired or its context was cancelled, and with the error of that cause |
| History.EventsAreRemembered | internal/host/tunnel.go:275-336 | the remembered events are every registration, withdrawal and answer read, in lock order |
| History.CutForGood | internal/host/tunnel.go:339-349 | a cut connection stays cut, and no write to it succeeds again |
| Messages.MessagesAreConserved | internal/host/tunnel.go:251-285 | on every connection, in both directions, messages come once, unchanged and in order: what was written is what was taken off, then what is under way, then the tail lost when the connection was cut |
| ConversationTheorems.StepKeepsGood | internal/host/tunnel.go:251-337 | every step of every goroutine keeps the joint invariant |
| ConversationInvariants.StepKeepsHost | internal/host/tunnel.go:275-336 | every step keeps ids, `pending`, channels, tokens and read pumps in agreement |
| Requests.StepKeepsRequests | internal/client/tunnel.go:130-164 | every step keeps each request in at most one queue or run, at its addressee |
| Authenticity.StepKeepsVouched | internal/client/handler.go:160-164 | every step, injections of anything else included, keeps a response under an id either one that `handle` produced for that id's request, or absent from every connection, read pump and call |
| Broadcast.StepAgrees | _legacy/NtunlHost/Services/TunnelHost.cs:113-119 | every step of the map dispatch is matched by showing its event to every waiter |
| Broadcast.ShownMeansFirstAnswer | internal/host/tunnel.go:275-283 | a waiter that is shown every event and keeps the first match has a response exactly when some event is the first to carry its id while registered, and that event's response |
| RequestCounts.StepKeepsCounts | internal/host/tunnel.go:322-325 | every step keeps the count equations and the window's agreement with the log |
| Lease.LeaseOwnership | internal/host/tunnel.go:137-161 | in every reachable state map keys and handlers between reservation and release correspond one to one, nil for reserved, own client for published; no two hold names equal up to case |
| Lease.StepKeepsOwned | internal/host/tunnel.go:187-247 | every critical section of every handler keeps that correspondence |
| Lease.PublishOverwritesOwnPlaceholder | internal/host/tunnel.go:159-161 | publishing replaces the handler's own nil entry and changes nobody else's |
| Lease.RemovalTakesOwnEntry | internal/host/tunnel.go:241-247 | the guards of releaseName and dropClient always hold: exactly the handler's own entry goes |
| Lease.LookupFindsTheLiveHolder | internal/host/tunnel.go:351-355 | GetClient finds a client under a name if and only if it is live under that name, ignoring case |
| Lease.HeldNamesFitThePool | internal/host/tunnel.go:191-212 | with a pool, held names are pool names and never outnumber its case-insensitively distinct ones |
| Lease.EveryHolderCanLeave | internal/host/tunnel.go:139-143 | whoever holds a name can give it back by its own steps, and then it is free |
| Lease.HandlersAreTheirArrivals | internal/host/tunnel.go:137 | the handlers of a run are its arrivals, in order, each with what it asked for; a handler's name is the one it was assigned, spelled as assigned |
| Allocation.AssignedIsFree | internal/host/tunnel.go:191-230 | a name handed out was not held, and is spelled as the pool spells it |
| Allocation.PoolIsComplete | internal/host/tunnel.go:205-211 | pool allocation succeeds exactly when some member is free |
| Allocation.PoolHonoursRequest | internal/host/tunnel.go:194-204 | a free requested member is honoured whatever its case |
| Allocation.PoolGivesFirstFree | internal/host/tunnel.go:205-211 | without a free requested member the first free one is handed out, in the pool's order |
| Allocation.DynamicFailure | internal/host/tunnel.go:214-230 | without a pool allocation fails exactly when the requested name, or every one of the draws, is held |
| Allocation.AssignedIsDeterministic | internal/host/tunnel.go:187-231 | the stated policy admits one answer |
| Allocation.AssignedExists | internal/host/tunnel.go:187-231 | the stated policy has an answer for every input |
| Allocation.FallbackOnlyWithoutRequest | internal/host/tunnel.go:185-186 | the documented random fallback happens exactly when no held name was requested or no draw was free |
| Allocation.FallbackIsMissing | internal/host/tunnel.go:215-218 | a case in which it does not |
| Allocation.DrawnNamesAreInjective | internal/host/tunnel.go:29-32 | different words or numbers never give names equal up to case |
| Allocation.FewerThanAllDrawsHeld | internal/host/tunnel.go:223-230 | the generator can name exactly 15984 clients: while fewer names are held some draw is free, and with those held none is |
| TunnelHost.TunnelHost.AssignSubdomain | internal/host/tunnel.go:187-231 | over 1000 draws the loops answer as the policy says, with the requested or the first free pool member, or the first free draw, and reserve just the answered name |
| TunnelHost.TunnelHost.Publish | internal/host/tunnel.go:159-161 | every spelling of the client's name leads to it from then on, every other name to whom it did before, and published clients keep standing under their own names |
| TunnelHost.TunnelHost.ReleaseName | internal/host/tunnel.go:241-247 | removes the entry unless a published client holds the name |
| TunnelHost.TunnelHost.DropClient | internal/host/tunnel.go:287-292 | no spelling of its name leads to this client any longer; every other answer stays |
| TunnelHost.TunnelHost.GetClient | internal/host/tunnel.go:351-355 | a published client is the answer exactly when its own name is the one asked for, ignoring case; nil means that there is none |
| TunnelHost.TunnelHost.GetAnyClient | internal/host/tunnel.go:358-367 | returns a published client if there is one |
| TunnelHost.TunnelHost.ActiveByUser | internal/host/tunnel.go:394-404 | lists exactly the user's published clients, one for each name |
| TunnelHost.TunnelHost.Take | internal/host/tunnel.go:275-280 | a channel is found exactly when the id was pending; it is empty, and nobody can find it again; every other waiter stays |
| TunnelHost.TunnelHost.Dispatch | internal/host/tunnel.go:275-283 | the waiter of an answer's id is sent the response and no longer waits, no send finds a full channel, and the other waiters stay ready |
| TunnelHost.TunnelHost.ReadPump | internal/host/tunnel.go:251-285 | run alone over any messages, gives each waiting call the first reply with its id and leaves the others waiting; then drops its own lease |
| TunnelHost.FirstReplyIsBroadcast | internal/host/tunnel.go:275-283 | that first reply is what a broadcast waiter shown every message hears |
| TunnelHost.TunnelHost.Conclude | internal/host/tunnel.go:322-325 | one more request on the client; the client's user gains this row as the newest and keeps the newest of the others, no other user's rows change |
| TunnelHost.TunnelHost.RecordRequest | internal/host/tunnel.go:369-379 | the user's rows are the new one and, before it, the newest there is room for among 100; no other user's rows change |
| TunnelHost.TunnelHost.RecentRequests | internal/host/tunnel.go:421-430 | the answer is the newest rows of the buffer, newest first, as many as asked for |
| RecentWindow.WindowRefinesLog | internal/host/tunnel.go:369-379 | after any interleaving of records for any users, a query shows the newest rows of the user's unbounded log, newest first, as many as asked for but at most 100 |
| RecentWindow.OtherWindowsUntouched | internal/host/tunnel.go:369-379 | a record leaves every other user's answers alone |
| HostLocks.EveryLockCanBeTaken | internal/host/tunnel.go:187-239 | in every reachable state, whoever stands before a lock gets it after a schedule in which only lock holders run, none through a channel operation |
| HostLocks.LocksExclude | internal/host/tunnel.go:233-239 | the writer inside `mu` is alone there, and only it ever holds `rngMu` |
| HostLocks.NoDataRace | internal/host/tunnel.go:187-430 | in every reachable state, two goroutines about to touch the same map, the rows, the random source or one connection's write side both only read it |
| HostLocks.RoutinesAreDisciplined | internal/host/tunnel.go:123-430 | every routine makes every access under its lock, nests only `rngMu` in `mu`, holds no lock across a channel operation, and ends holding nothing, for any number of draws and messages |
| HostLocks.AnsweredCallDoes | internal/host/tunnel.go:302-325 | an answered call registers, writes, receives and records, in this order and nothing else |
| HostLocks.AbandonedCallDoes | internal/host/tunnel.go:326-336 | an abandoned call registers, writes, waits and withdraws |
| HostLocks.FailedSendDoes | internal/host/tunnel.go:314-319 | a call whose write fails registers, writes and withdraws |
| HostLocks.ServedConnDoes | internal/host/tunnel.go:123-182 | a served connection searches and reserves a name, publishes, says hello if a domain is known, looks up each answer and sends on each channel it finds, and leaves |
| ClientServe.SlotsMatchHandlers | internal/client/tunnel.go:148-160 | occupied slots equal unreleased handlers, plus one between acquiring and starting, never above 100; releasing never blocks |
| ClientServe.DrainIsComplete | internal/client/tunnel.go:166-169 | when serve has returned every slot is free, no handler or pinger runs, and in every continuation no write begins on that connection |
| ClientServe.DrainingAlwaysReturns | internal/client/tunnel.go:166-169 | from every draining state serve can return by winding down alone: a handler waiting for the write mutex gets it after the writer's write has failed |
| ClientServe.EveryDrainReturns | internal/client/tunnel.go:166-169 | no schedule of a draining serve goes on for ever, and one that can go no further has returned |
| ClientServe.WaitingForMutexIsStuck | internal/client/tunnel.go:194-200 | a handler waiting for the write mutex goes on only by taking it, when nobody writes |
| ClientServe.OneWriter | internal/client/tunnel.go:194-200 | at most one handler writes at a time |
| ClientServe.EveryAnswerIsWritten | internal/client/tunnel.go:172-189 | in every run each answer of `handle` has had its write begun or its handler waits for the mutex, and each request read has a handler, is in hand or met cancellation |
| ClientServe.OnlyCancellationDropsRequests | internal/client/tunnel.go:149-153 | a request that was read is dropped only in a run cancelled from outside |
| ClientServe.FlowIsConserved | internal/client/tunnel.go:148-189 | at every stage, the handlers there are those that came less those that went on |
| ClientServe.RequestCanBeServed | internal/client/tunnel.go:130-189 | whenever serve is reading, the next request can be read, given a slot, handled, written and finished without a failure, an abandonment or a cancellation, however many slots are taken and whoever is writing |
| ClientServe.RequestIsServedDirectly | internal/client/tunnel.go:130-189 | with fewer than 100 slots taken and nobody writing, in just eight steps and one write |
| ClientHandler.RewritingCommutesWithCoding | internal/client/handler.go:205-234 | unless the encoder fails, every reader that understands gzip, br and no coding sees the replacement applied to what it would have seen, if and only if the declared coding is one of these or the replacement changes nothing |
| ClientHandler.UnknownCodingIsCorrupted | internal/client/handler.go:207-225 | a body in another coding comes out wrong, without an error and with the right length |
| ClientHandler.RewritingKeepsHeadersTrue | internal/client/handler.go:207-234 | without an error the declared length is right; a body that does not decode is left as it was; the declared coding stays |
| ClientHandler.LengthStaysRightUnlessEncoderFails | internal/client/handler.go:226-232 | the declared length stays right exactly unless the encoder fails on a body whose decoded length differs |
| ClientHandler.BuiltResponseMeansWhatItShould | internal/client/handler.go:167-203 | with coders that do not fail, the built response has the upstream's status and declares its own length; its body is the upstream's, unless rewriting is on, the URL known and some Content-Type value has `text/html` in it; then every reader sees the replacement applied to what it would see of the upstream body under the upstream's Content-Encoding, if that is absent, `gzip` or `br`, and else the coded bytes are rewritten |
| ClientHandler.HeadersArePartitioned | internal/client/handler.go:173-243 | each upstream header stands in exactly one of the built response's two maps, the content map if and only if it is one of the ten listed names ignoring case; a single value stays as it is, several are joined |
| ClientHandler.RewriteBody | internal/client/handler.go:207-234 | the in-place rewriting leaves what the rewriting function says, error cases included |
| ClientHandler.BuildResponse | internal/client/handler.go:167-203 | the header loop, in any order, and the rewriting give the built response |
| HttpServer.AdvertisedUrlRoutesBack | internal/host/httpserver.go:79-86 | a Host header spelling a live client's name in any case, then a dot and anything, leads to it and no other exactly when the name has no dot and is not a local label, or it is the only client |
| HttpServer.LocalHostsLeadToAny | internal/host/httpserver.go:79-86 | a Host header is answered by any live client exactly when it is `localhost` or `192` or starts with one of them and a dot, as 192.168.1.5 does |
| HttpServer.DottedNameIsLost | internal/host/httpserver.go:79 | a client that asked for `a.b` has that name, and its advertised URL leads nowhere |
| HttpServer.LocalNameIsShared | internal/host/httpserver.go:82-83 | a client that asked for `localhost` has that name, and its advertised URL may lead to another |
| HttpServer.DrawnNamesRouteBack | internal/host/tunnel.go:224 | every generated name meets that condition in every spelling |
| HttpServer.BlockedMeansSomeEntryMatches | internal/host/httpserver.go:48-54 | the set-and-prefix-list test blocks a header exactly when some configured entry matches it, ignoring case |
| HttpServer.WrittenIsRead | internal/host/httpserver.go:49-50 | which names and prefixes a configured entry can express |
| HttpServer.FilterRefinesBlacklist | internal/host/httpserver.go:145-169 | the forwarded map is exactly the non-empty headers no entry matches, less the IP header, with Host set last; a single value stays as it is, several are joined |
| HttpServer.BlockedHostIsForwarded | internal/host/httpserver.go:164-167 | an entry `Host` blocks the header, which is forwarded all the same |
| HttpServer.HttpServer.constructor | internal/host/httpserver.go:33-56 | the loop builds the set and the prefix list |
| HttpServer.HttpServer.CollectHeaders | internal/host/httpserver.go:145-169 | the loop, in any order, gives the forwarded map, and the address from the IP header when there is one |
| HttpServer.HttpServer.MatchesWild | internal/host/httpserver.go:171-178 | true exactly when some prefix matches |
| HttpServer.HttpServer.Resolve | internal/host/httpserver.go:79-86 | answers as the routing relation allows |
| HttpServer.UpstreamReachesBrowser | internal/host/httpserver.go:121-141 | from upstream to browser: the status (0 becoming 200), the built body, every header outside the ten entity headers, and of those Content-Encoding and Content-Type alone, a missing type becoming `application/octet-stream` |
| HttpServer.HttpServer.WriteResponse | internal/host/httpserver.go:121-141 | the loop, in any order, writes that reply |
| Ascii.LowerBytes | internal/host/tunnel.go:439-447 | the in-place loop lowers every byte and changes nothing but case |
| Ascii.LowerDecidesEqualFold | internal/host/tunnel.go:439-447 | two strings lower to the same exactly when they are equal up to ASCII case |
| Ascii.JoinOfBoth | internal/host/httpserver.go:162 | joining two lists puts one comma between them and changes nothing else |
| Ascii.JoinedValuesSplit | internal/host/httpserver.go:162 | joined values split into the fields of each, in order; into the values themselves when none has a comma |
| Ascii.JoinContains | internal/client/handler.go:193 | a joined header contains a text without commas exactly when one of its values does |
| Ascii.ItoaIsDecimal | internal/client/handler.go:183 | lengths are written in decimal, without leading zeros |
| LegacyFrame.FrameRoundTrip | _legacy/NtunlCommon/Data/Command.cs:26-52 | reading a frame back, whatever follows it, gives the command, for every type, GUID and Unicode text up to the int32 length |
| LegacyFrame.FrameLayout | plans/go-migration.md:71-72 | little-endian command type, mixed-endian GUID, then the counted text, byte by byte |
| LegacyFrame.FramesArePrefixFree | _legacy/NtunlCommon/Data/Command.cs:26-36 | encoding is injective and no frame is a prefix of another |
| LegacyFrame.CutFrameFails | _legacy/NtunlCommon/Data/Command.cs:37-52 | a frame cut short anywhere is refused, in the GUID as a bad one and elsewhere as the end of the stream |
| LegacyFrame.ParsedMeansFramed | _legacy/NtunlCommon/Data/Command.cs:37-52 | what the reader accepts is the command's own frame, then anything, exactly when the length prefix is not padded |
| LegacyFrame.Utf8Inverse | plans/go-migration.md:71-72 | bytes decode to a text exactly when they are its UTF-8 encoding (section 3 of RFC 3629) |
| LegacyFrame.EncodeCharLayout | plans/go-migration.md:71-72 | each character has the bytes of the table in section 3 of RFC 3629; ASCII is its own bytes |
| LegacyFrame.PrefixLayout | plans/go-migration.md:71-72 | the groups of seven bits, lowest first, make the length, and every byte but the last has its high bit set |
| LegacyFrame.PrefixInverse | plans/go-migration.md:71-72 | the 7-bit length prefix reads back, in at most five bytes |
| LegacyFrame.GuidInverse | plans/go-migration.md:71-72 | the mixed-endian GUID bytes read back |
| LegacyFrame.ToBytes | _legacy/NtunlCommon/Data/Command.cs:26-36 | the writer's loops append the frame, null data being empty |
| LegacyFrame.FromBytes | _legacy/NtunlCommon/Data/Command.cs:37-52 | the reader's cursor loops parse as the parsing function does, each error case included |

## Left out

- Sockets, TLS, WebSocket framing, pings, listener start-up and shutdown: a connection is two message queues that may be cut; time is a step that may happen.
- The JSON codec and base64: commands and payloads arrive intact, or as `Junk` when undecodable.
- gzip, brotli and regular expressions: parameters, of which only decompress-after-compress is assumed.
- Error replies and the not-found page of the HTTP listener, and the canonical spelling of header names by `net/http`: fixed texts, and a library's rule.
- The store, authentication, sessions, portal pages, certificates, configuration loading, logging, command-line entry points and the inspector: I/O and presentation.
- `run` and `connect`: the retry loop has only easy claims; a reconnect is a new connection to the host.
- `AllActive`: as `ActiveByUser`, without the user.
- The request half of `handle` (copying headers to the upstream request, method fallback) and its log of pairs: only the id of the reply and the produced response matter here.
- Unicode case folding: names and header fields are ASCII, as `lower` treats them.
- The probability of a collision of random names: draws are arbitrary values in range.
- The order in which an unlocked mutex goes to its waiters: left open, so no claim is made about fairness.
- Broadcast.Inspect: keeps the first match; the legacy handler it stands for (`_legacy/NtunlHost/Services/TunnelHost.cs:179-189`) would overwrite it with a later one arriving before it is unsubscribed.
- LegacyFrame.Parse: does not model the replacement characters the library puts for text bytes that are not UTF-8; such a frame parses as `Garbled`.
- LegacyFrame.ToBytes: does not model ill-formed UTF-16 text, nor the failure to write a text of more than 2147483647 bytes.
- HttpServer.HttpServer.CollectHeaders: which of several IP headers differing only in case gives the address is left open; canonical header names have at most one.
- TunnelHost.TunnelHost.ReadPump: is the loop run alone; under interleaving the read pump is the `Read`, `Route` and `Deliver` steps of `Conversations`.
