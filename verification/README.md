# Session control plane: model and proofs

This project models the control plane of a marketplace for paid, time-boxed relay sessions and proves
properties of it. A payment contract holds the money, an orchestrator keeps an append-only log of session
states, an on-chain registry says which relays exist and which were revoked, and a desktop client carries
the traffic. `dafny verify dfyconfig.toml` checks everything.

## The parts

- **Mesh, Subdivide, Icosahedron, SetCounting, Decimal.** The wireframe globe. `Mesh` is the combinatorics
  of one geodesic round: the midpoint numbering is a bijection between undirected edges and new indices, and
  from it follow the counts, the fitness for another round and the closed orientation. `Subdivide` is the
  code itself, with its string-keyed cache and its 32-bit trap.
- **Escrow, EscrowContract, EscrowPayments, Receipts, PaidSessions.** The contract with re-entrant callees: a callee is any
  finite tree of further calls, and the books must balance at every call-out point inside the tree.
  `EscrowPayments` says who gets money out, when and how much.
  `Receipts` is the orchestrator's reading of a transaction's logs. In `PaidSessions` both ledgers move: the
  escrow by transactions, whose receipts hold the logs of every contract involved, and the orchestrator's log
  by handlers that read them.
- **SessionLog, Handlers, HandlerReplies, TwoStepWrites, Failover, Orchestrator.** One log for many sessions and its projections. A handler
  is a process that is resumed from one await to the next; requests, resumptions and restarts interleave
  freely. `TwoStepWrites` takes reading the state and inserting the row apart. `Failover` settles when a failover changes the relay. `Orchestrator` has the handlers as
  straight-line methods, tied to their processes, and `HandlerReplies` spells out what each answers and writes.
- **Replication, LiveFeed, Broadcasts.** A session page rebuilds the log from a snapshot and a socket, which may be
  registered before or after the snapshot is read. In `LiveFeed` hub, socket and page are objects, and their
  methods are the events of those runs. `Broadcasts` joins the handlers with the order in which they send.
- **ProxyRelay, ProxyRequests, ProxyConnection, ValidText.** The local CONNECT proxy: a header reader over
  arbitrarily cut streams, what is asked for and answered, and two pumps.
- **Bytes, Utf8, DnsName, TierList, Keystone, Registry, RegistryRuns, RegistryDecisions, RegistryContracts,
  Directory, Assignments.** The operator registry. Registration is a list of calls executed on a permission-checked resolver; afterwards
  accounts other than the resolver's root admin take any steps, among them the watchdog's and the
  refresher's entry points, while the orchestrator reads through a ten-second cache. `Assignments` runs
  registry, cache and handlers together.
- **Base64, SessionToken.** Token issue, verification, and the desktop client's own reading of the body.
- **Doubles, Pricing.** A price's way from cents through displayed dollars back to wei, in binary64
  arithmetic where every rounding may be any correct rounding to nearest.
- **AppLifecycle.** Connect and disconnect of the desktop client and its connection history.

Where the source changes things in place the model has a class or a loop as well, and each such method with
a row below is proved equal to the function the theorems are about, or to state its whole result.

## Where a property of the source does not hold as one might expect

- A passed payment check does not by itself mean that the session was paid for. The check compares the
  transaction's recipient and a log's contents, but not which contract emitted the log, and a payout or refund
  carries the logs of the contract it pays (`PaidSessions.ForeignLogPasses`, `PaidSessions.UnbackedRow`).
  `PaidSessions.CheckNamesPaidIff` and `PaidSessions.EveryPaidRowIsBackedIff` give the exact condition; that
  the first matching log is the escrow's own is enough.
- At most one payment and one token per session rests on the state not changing between its read and the
  insertion. `TwoStepWrites.OneStepIff` says exactly when a run is as good as one with single steps;
  `TwoStepWrites.TwoTokens` is a run that is not.
- An ACTIVE row may be broadcast after later rows of its session, and no other row may
  (`Broadcasts.EveryRunInOrder`), so a page can go on showing an ended session as ACTIVE
  (`Broadcasts.EndedShownActive`).
- A failover's new relay is guaranteed to differ from the relay in use only if no other failover of the
  session overlaps (`Failover.UndisturbedFailoverMoves`). `Failover.OverlappingFailoversKeepRelay` is a run
  from the start in which the second of two failovers drops a relay and ends on it again. For every run,
  `Failover.DropsWhatItReadIff` and `Failover.MayKeepRelayIff` give the exact condition in terms of the log.
- A page whose socket is registered after its snapshot was read may miss a row for good
  (`Replication.LateSocketLosesRow`); `Replication.CaughtUpIff` says exactly when.
- A name with an empty label is hashed with it but written to the wire without it, so the roles granted at
  registration are for another node than the records, possibly another operator's
  (`Registry.WatchdogMayRevokeIff`). Operational keys have their roles on their own operators' records
  exactly when no name has one (`RegistryRuns.KeyedIsOwnerIff`); `RegistryRuns.EmptyLabelMisdirects` is a
  write by one operator's key over another's endpoint.
- The watchdog's check compares a report with the published hash only when a full word is published; on a
  shorter value it reverts and decides nothing (`RegistryRuns.CheckDecides`), and an operator's key can
  publish one at any time (`RegistryRuns.ShortHashStopsChecks`).
- The proxy writes the session token into its request header as it is. The remote end is left with exactly
  the client's bytes if and only if no blank line begins before the token's end
  (`ProxyRelay.FarEndsReadEachOther`, `ProxyRelay.TokenWithBlankLine`).

## Model

| member | source | states |
|---|---|---|
| Mesh.MidpointsBijection | apps/macos-client/Sources/DVoDClient/Hero3DView.swift:136-149 | the midpoint indices of a mesh are one per undirected edge, injective, and exactly the block V to V+E-1 |
| Mesh.NumberIsBijection | apps/macos-client/Sources/DVoDClient/Hero3DView.swift:136-149 | numbering edges in the order they are asked for never skips or repeats an index |
| Mesh.WalkCoversEdges | apps/macos-client/Sources/DVoDClient/Hero3DView.swift:151-156 | the edges the face loop asks for are exactly the undirected edges of the mesh |
| Mesh.SplitIsProper | apps/macos-client/Sources/DVoDClient/Hero3DView.swift:151-162 | the four pieces of all faces are in range, not collapsed and pairwise different |
| Mesh.EdgeCount | apps/macos-client/Sources/DVoDClient/Hero3DView.swift:151-162 | one round gives exactly 2E+3F distinct undirected edges |
| Mesh.SubdivisionCounts | apps/macos-client/Sources/DVoDClient/Hero3DView.swift:128-163 | one round gives 4F faces, 2E+3F edges and a mesh on V+E vertices fit for another round |
| Mesh.SubdivisionKeepsOrientation | apps/macos-client/Sources/DVoDClient/Hero3DView.swift:151-162 | if every directed edge lies in one face and its reverse in one face, the same holds after a round |
| Mesh.RoundsStayProper | apps/macos-client/Sources/DVoDClient/Hero3DView.swift:128-163 | the preconditions hold again after any number of rounds |
| Mesh.RoundsKeepEuler | apps/macos-client/Sources/DVoDClient/Hero3DView.swift:128-163 | any number of rounds keeps V-E+F and multiplies the faces by four each time |
| Mesh.RoundsKeepOrientation | apps/macos-client/Sources/DVoDClient/Hero3DView.swift:128-163 | any number of rounds keeps the closed consistent orientation |
| Mesh.ClosedMeshEdges | apps/macos-client/Sources/DVoDClient/Hero3DView.swift:85-90 | a closed oriented mesh has 2E = 3F |
| Subdivide.KeyInjective | apps/macos-client/Sources/DVoDClient/Hero3DView.swift:137 | two edges with the same cache key are the same edge |
| Subdivide.MidpointTable.Midpoint | apps/macos-client/Sources/DVoDClient/Hero3DView.swift:136-149 | the cached lookup returns the edge's index whichever way round it is asked, places the blend of its old ends there, and traps exactly when a new index does not fit 32 bits |
| Subdivide.Subdivide | apps/macos-client/Sources/DVoDClient/Hero3DView.swift:128-163 | the loop returns exactly the subdivided faces and V+E points, each midpoint placed between its ends, unless V+E does not fit |
| Subdivide.CollectEdges | apps/macos-client/Sources/DVoDClient/Hero3DView.swift:85-90 | the edge loop collects exactly the distinct undirected edges |
| Subdivide.TrapMeansTooMany | apps/macos-client/Sources/DVoDClient/Hero3DView.swift:145 | an index trap in mid-mesh means V+E exceeds what 32-bit indices hold |
| Icosahedron.IcosahedronIsClosed | apps/macos-client/Sources/DVoDClient/Hero3DView.swift:73-78 | the base table is a closed, consistently oriented mesh with 12 vertices and 30 edges |
| Icosahedron.GeodesicSphere | apps/macos-client/Sources/DVoDClient/Hero3DView.swift:80-83 | 12, 20 and 30 become 42, 80 and 120, and V-E+F is 2 after any number of rounds |
| Escrow.ExecIsSound | contracts/arc/src/SessionEscrow.sol:84-131 | one call, with callees re-entering to any depth, keeps the books balanced after it and at every call-out point inside it, and loses no record |
| Escrow.EveryRunBalances | contracts/arc/src/SessionEscrow.sol:84-131 | in every run, at every call-out point, balance + paid out + refunded is the sum of all payments, ids are 0 to nextSessionId-1, and each was paid its price |
| Escrow.NoSecondRefund | contracts/arc/src/SessionEscrow.sol:121-131 | a refunded session has been refunded exactly once, for ever |
| Escrow.RefundIsSound | contracts/arc/src/SessionEscrow.sol:121-131 | the refund, whose flag is set before the call-out, keeps the books whatever the payer does in it |
| Escrow.PayoutIsSound | contracts/arc/src/SessionEscrow.sol:109-116 | the payout keeps the books whatever the recipient does in it |
| Escrow.PurchaseKeepsBooks | contracts/arc/src/SessionEscrow.sol:84-105 | a purchase adds one session under the next id at its exact price, or changes nothing |
| EscrowPayments.OutsidersTakeNothing | contracts/arc/src/SessionEscrow.sol:71-73 | whatever sequence of calls others than the admin make, no money leaves, nobody is called and no session is touched |
| EscrowPayments.PayoutGoesThroughIff | contracts/arc/src/SessionEscrow.sol:109-116 | a payout goes through exactly for the admin, up to the balance, to a recipient other than the escrow that takes it; it then adds exactly that transfer and its event to what the recipient's own calls do, and otherwise changes nothing and gives the reason |
| EscrowPayments.RefundGoesThroughIff | contracts/arc/src/SessionEscrow.sol:121-131 | a refund goes through exactly for the admin, on a session not refunded before, if the balance suffices and the payer takes it; it then sends the payer exactly the price paid, and otherwise changes nothing and gives the reason |
| EscrowContract.SessionEscrow.PurchaseSession | contracts/arc/src/SessionEscrow.sol:84-105 | the storage updates do what the transaction function says, reverts included |
| EscrowContract.SessionEscrow.PayoutOperator | contracts/arc/src/SessionEscrow.sol:109-116 | the same for payouts, with the re-entrant call in the middle |
| EscrowContract.SessionEscrow.RefundSession | contracts/arc/src/SessionEscrow.sol:121-131 | the same for refunds, with roll-back when the transfer fails |
| Receipts.VerifySessionPurchase | apps/orchestrator/src/arc-client.ts:43-86 | the log scan succeeds exactly when the transaction is a payment and some log matches tier, hours and price, and returns the first such log |
| Receipts.PurchaseEventIffSession | contracts/arc/src/SessionEscrow.sol:94-104 | the purchase events of a reachable escrow are exactly the records of its sessions, payer included |
| Receipts.VerifiedPurchaseIsPaidIff | apps/orchestrator/src/arc-client.ts:66-81 | whatever contracts emitted the logs, a verified purchase is a session sold on those terms exactly when the escrow has itself emitted that event, up to the payer; then at the contract's price, and after any later transactions too |
| PaidSessions.CheckNamesPaidIff | apps/orchestrator/src/routes/sessions.ts:72-84 | on any receipts, a passed check names a session bought on the terms asked for exactly when the escrow has emitted the event of the first matching log, up to the payer |
| PaidSessions.EveryPaidRowIsBackedIff | apps/orchestrator/src/routes/sessions.ts:72-100 | in every course of transactions, requests, interleavings and restarts, behind each PAID row is a log by which some transaction's check passed, for the row's session and tier and 1 to 24 hours that run from the clock of that check exactly to the row's expiry; the session was bought on those terms exactly when the escrow has emitted that event, up to the payer, as it has if the log is its own |
| PaidSessions.ForeignLogPasses | apps/orchestrator/src/arc-client.ts:59-81 | the transaction of any payout or refund that goes through passes the check by a log of the contract it pays |
| PaidSessions.UnbackedRow | apps/orchestrator/src/arc-client.ts:59-81 | a course from the start that ends in a PAID row, of any tier and length, for a session the escrow has never sold |
| PaidSessions.BackedRowsStay | contracts/arc/src/SessionEscrow.sol:84-131 | a session bought on some terms at one moment of a course is so at every later one |
| SessionLog.SessionStore.RecordTransition | apps/orchestrator/src/session-state.ts:24-51 | appends the checked row, or refuses and leaves the table alone |
| SessionLog.DealIsKept | apps/orchestrator/src/session-state.ts:53-67 | tier and expiry read from a well-formed log are those of the session's PAID row |
| SessionLog.TrailIsLegal | packages/session-spec/src/session.ts:25-37 | each session's states are a prefix of the opening and any number of failover rounds, optionally ended |
| SessionLog.PaidAtMostOnce | apps/orchestrator/src/session-state.ts:29-39 | no session has two PAID rows |
| SessionLog.OneWalkCoversTheTable | packages/session-spec/src/session.ts:25-37 | a transition is valid exactly if it is a step of one walk from browsing to the end, by way of a relay that fails and one that is revoked |
| Handlers.OwnerIsNeverRejected | apps/orchestrator/src/routes/failover.ts:33-55 | a process that owns its session never attempts an invalid transition |
| Handlers.StepKeepsOthers | apps/orchestrator/src/session-state.ts:29-39 | no step of one process writes a session another process owns |
| Handlers.EveryRunKeepsInv | apps/orchestrator/src/routes/sessions.ts:68-111 | ownership, the deals and the well-formed log hold after every interleaving and restart |
| Handlers.EveryHistoryIsLegal | packages/session-spec/src/session.ts:25-37 | in every run each session's history is legal, paid at most once, and keeps tier and expiry of its payment |
| Handlers.DealOutlivesEverything | apps/orchestrator/src/session-state.ts:53-67 | what was paid for is what is read ever after |
| Handlers.OneTokenPerSession | apps/orchestrator/src/routes/sessions.ts:68-111 | at most one token per session id, even when a restart has emptied the set of used transactions |
| Handlers.OwnerCompletes | apps/orchestrator/src/routes/failover.ts:33-55 | after PAID or RELAY_UNREACHABLE no remaining step of that handler is turned away |
| TwoStepWrites.OneStepIff | apps/orchestrator/src/session-state.ts:29-50 | with the state read at one await and the row inserted at a later one, the log of a run is well formed exactly when no insertion finds its session in another state than was read, and then the run is one of the one-step handlers |
| TwoStepWrites.ApartIsNeverStale | apps/orchestrator/src/session-state.ts:29-50 | in particular a run in which no row of a session comes in between another write's read and insertion for it |
| TwoStepWrites.TwoTokens | apps/orchestrator/src/routes/sessions.ts:68-111 | a run from the start in which two purchases overlap so that one session is paid twice in the log and two tokens are issued for it |
| Failover.FailoverAvoidsFailedRelay | apps/orchestrator/src/routes/failover.ts:43-49 | in every run the chosen relay is not the one read as failed |
| Failover.DropsWhatItReadIff | apps/orchestrator/src/routes/failover.ts:27-36 | in every run, what a failover drops is what it read exactly when the last relay its session's log names between the two, if any, is that relay |
| Failover.ChoiceKeepsRelayIff | apps/orchestrator/src/routes/failover.ts:43-49 | in every run, the choice is the dropped relay exactly when the search finds that relay |
| Failover.MayKeepRelayIff | apps/orchestrator/src/routes/failover.ts:27-49 | in every run, a choosing failover can end on the relay it dropped, for some eligible relays, exactly when the log names another relay last between its read and its drop |
| Failover.OnlyFailoversName | apps/orchestrator/src/routes/failover.ts:33-55 | between a failover's check and its drop only another failover of the session writes a row naming a relay for it |
| Failover.UndisturbedFailoverMoves | apps/orchestrator/src/routes/failover.ts:20-62 | in every run each failover has a read and a later drop, and if no other failover of its session was in flight from one to the other, it drops what it read and moves to another relay |
| Failover.OverlappingFailoversKeepRelay | apps/orchestrator/src/routes/failover.ts:20-62 | a run from the start in which a failover drops a relay and ends the session on it again |
| Handlers.PickDiffers | apps/orchestrator/src/routes/failover.ts:44 | the search returns an eligible relay other than the failed one |
| Handlers.PickIsFirstOther | apps/orchestrator/src/routes/failover.ts:44-47 | it finds nothing exactly when no other relay is eligible, and otherwise the first other one |
| HandlerReplies.PurchaseIsAdmittedIff | apps/orchestrator/src/routes/sessions.ts:32-70 | in every run a request is malformed exactly for a bad length or want of a relay, asked for payment exactly without a transaction, refused as used exactly if its transaction passed a check since the last restart, and else goes to the check with the first eligible relay |
| HandlerReplies.RestartEndsAll | apps/orchestrator/src/routes/sessions.ts:16-18 | whoever was running at a restart never writes again |
| HandlerReplies.PurchaseAlone | apps/orchestrator/src/routes/sessions.ts:71-124 | run straight through, a verified purchase of a session without rows adds exactly four rows, on its relay and tier, expiring its hours after the check, and issues the token; of one with rows it adds none; an unverified one changes nothing |
| HandlerReplies.EndAlone | apps/orchestrator/src/routes/end-session.ts:13-30 | ending an active session adds exactly one row, and on any other is a bad request that adds none |
| HandlerReplies.FailoverAlone | apps/orchestrator/src/routes/failover.ts:20-62 | on an active session a failover adds two rows off the relay in use, and two more onto the first other eligible one if there is one; on any other it is a bad request that adds none |
| Orchestrator.Server.PurchaseSession | apps/orchestrator/src/routes/sessions.ts:29-127 | the handler run straight through leaves log, used transactions and reply of its process |
| Orchestrator.Server.ForceRelayFailure | apps/orchestrator/src/routes/failover.ts:20-62 | the same for the failover handler |
| Orchestrator.Server.EndSession | apps/orchestrator/src/routes/end-session.ts:13-30 | the same for the end handler |
| Orchestrator.FailoverAloneChangesRelay | apps/orchestrator/src/routes/failover.ts:20-62 | undisturbed on an active session, a failover ends on another relay or stops for want of one |
| Replication.PageAgreesWithServer | apps/web/src/app/session/[id]/page.tsx:41-43 | on a whole session log the page's state, relay and tier are the server's projections |
| Replication.RunKeepsInv | apps/orchestrator/src/ws-hub.ts:12-17 | queue, live rows and snapshot stay slices of the one log in every run |
| Replication.UnseenIsTail | apps/web/src/app/session/[id]/page.tsx:38-40 | of the live rows the merge keeps exactly those after the snapshot's end |
| Replication.MergedView | apps/web/src/app/session/[id]/page.tsx:38-40 | the page shows the rows before the snapshot and those broadcast after registration |
| Replication.EarlySocketShowsPrefix | apps/web/src/app/session/[id]/page.tsx:36-43 | with the socket registered first, the page always shows a duplicate-free prefix of the session's log that reaches snapshot and deliveries |
| Replication.CaughtUpIff | apps/web/src/app/session/[id]/page.tsx:36-43 | all delivered, the page shows the whole log exactly when no row of its session was broadcast between snapshot and registration, and then agrees with the server |
| Replication.PageCatchesUp | apps/web/src/lib/useSessionStream.ts:16-24 | from every moment of every run broadcasts and deliveries alone bring the page to where all is delivered, with the whole log shown if its socket was early |
| Replication.LateSocketLosesRow | apps/web/src/lib/useSessionStream.ts:16-24 | a run in which a row is lost to a socket registered late |
| Broadcasts.EveryRunInOrder | apps/orchestrator/src/routes/failover.ts:33-55 | in every run, with each row broadcast when its writer resumes, a row sent after a later row of its session is an ACTIVE row |
| Broadcasts.PageShowsStateOrActive | apps/web/src/app/session/[id]/page.tsx:41 | once its session's last row is sent, a page that listens shows the server's state or ACTIVE |
| Broadcasts.EndedShownActive | apps/orchestrator/src/routes/end-session.ts:20-23 | a run from the start after which all is sent, the session has ended and the page shows it as ACTIVE |
| LiveFeed.Hub.RegisterClient | apps/orchestrator/src/ws-hub.ts:5-8 | on hub, socket, page and log together it is the registration event of the replication runs |
| LiveFeed.Hub.Broadcast | apps/orchestrator/src/ws-hub.ts:12-17 | every registered open socket gets the row once and last, nobody else anything, and for each of them it is the broadcast event of the replication runs |
| LiveFeed.Socket.Deliver | apps/web/src/lib/useSessionStream.ts:17-22 | the oldest undelivered row reaches the page's handler: the delivery event |
| LiveFeed.SessionPage.ReadSnapshot | apps/web/src/app/session/[id]/page.tsx:30-34 | the server answers the one snapshot request from its table: the snapshot event |
| LiveFeed.SessionPage.SetDetail | apps/web/src/app/session/[id]/page.tsx:30-34 | the answer becomes the page's snapshot: its arrival event |
| LiveFeed.SessionPage.OnMessage | apps/web/src/lib/useSessionStream.ts:18-22 | a message of this session is appended, any other ignored |
| ProxyRelay.ReaderFindsFirstBlankLine | apps/macos-client/Sources/DVoDClient/LocalProxyServer.swift:102-123 | for every cutting of the stream the header is what precedes the first blank line of the whole stream, and nothing after it is lost or repeated |
| ProxyRelay.FindIsFirst | apps/macos-client/Sources/DVoDClient/LocalProxyServer.swift:111 | the search returns the first occurrence, or there is none |
| ProxyRelay.EveryRunConserves | apps/macos-client/Sources/DVoDClient/LocalProxyServer.swift:34-96 | at every moment the remote has been sent the CONNECT request and then exactly the client's bytes after its header, and symmetrically |
| ProxyRelay.CuttingDoesNotMatter | apps/macos-client/Sources/DVoDClient/LocalProxyServer.swift:84-96 | tunnels that received the same bytes sent the same bytes |
| ProxyRelay.TunnelReads | apps/macos-client/Sources/DVoDClient/LocalProxyServer.swift:34-49 | fed by the client alone, in any cutting, the tunnel stands where the header reader says |
| ProxyRelay.TargetHasNoCrlf | apps/macos-client/Sources/DVoDClient/LocalProxyServer.swift:38-45 | a target taken from a header holds no line break |
| ProxyRequests.TargetIsRead | apps/macos-client/Sources/DVoDClient/LocalProxyServer.swift:38-45 | a well-formed header that asks for a target is read as asking for exactly that target |
| ProxyRequests.TargetAfterSeparators | apps/macos-client/Sources/DVoDClient/LocalProxyServer.swift:38-45 | line breaks in front of the request line and further spaces in front of the target make no difference |
| ProxyRequests.TargetIsWord | apps/macos-client/Sources/DVoDClient/LocalProxyServer.swift:38-45 | what is taken for a target, in a well-formed header only, is not empty and holds no space or line break |
| ProxyRequests.AsksForTheTarget | apps/macos-client/Sources/DVoDClient/LocalProxyServer.swift:34-57 | in every run whose client asks for a target, nothing is sent to the remote but the request for that target and what follows it |
| ProxyRequests.TargetIsAsked | apps/macos-client/Sources/DVoDClient/LocalProxyServer.swift:34-57 | and it is sent once the header is there, however the stream is cut |
| ProxyRequests.RequestReads | apps/macos-client/Sources/DVoDClient/LocalProxyServer.swift:56 | read line by line the request is a request line for the target, its host, the token, and the end |
| ProxyRequests.AnswerDecides | apps/macos-client/Sources/DVoDClient/LocalProxyServer.swift:61-70 | past the remote's answer the client was told that the tunnel stands exactly if the answer is UTF-8 and says 200 in either version, and a 502 otherwise |
| ProxyRequests.TunnelOpens | apps/macos-client/Sources/DVoDClient/LocalProxyServer.swift:34-81 | a client that asks in well-formed UTF-8 and a remote that says 200 get their tunnel, however both streams are cut |
| ProxyRequests.TunnelGoesOn | apps/macos-client/Sources/DVoDClient/LocalProxyServer.swift:84-96 | once open it stays open and passes on what either side sends until a stream ends |
| ProxyRequests.EndIsTheEnd | apps/macos-client/Sources/DVoDClient/LocalProxyServer.swift:85-121 | when a stream ends before its header is complete, or while the pumps run, nothing more is ever sent in either direction |
| ProxyRelay.RequestBody | apps/macos-client/Sources/DVoDClient/LocalProxyServer.swift:56 | read up to its first blank line, the request leaves behind whatever the token holds after its own first blank line, and then what follows |
| ProxyRelay.FarEndsReadEachOther | apps/macos-client/Sources/DVoDClient/LocalProxyServer.swift:51-81 | in every pumping run the client is left with exactly the remote's bytes, and the remote with exactly the client's if and only if the first blank line from the token's start on is the one behind the token |
| ProxyRelay.TokenWithBlankLine | apps/macos-client/Sources/DVoDClient/LocalProxyServer.swift:56 | with a blank line inside the token the rest of the token comes before the client's bytes |
| ProxyRelay.IssuedTokenIsRelayed | apps/macos-client/Sources/DVoDClient/LocalProxyServer.swift:56 | with a token as the orchestrator issues them every pumping run leaves the remote with exactly the client's bytes |
| ProxyConnection.Connection.OnClientReceive | apps/macos-client/Sources/DVoDClient/LocalProxyServer.swift:34-96 | the client-side callbacks update buffer and sends as the tunnel function says |
| ProxyConnection.Connection.OnRemoteReceive | apps/macos-client/Sources/DVoDClient/LocalProxyServer.swift:59-96 | the same for the remote side |
| Bytes.HexRoundTrip | contracts/ens/src/keystone/ReceiverTemplate.sol:168-177 | the digits of any bytes are lower-case and decode back to them |
| Bytes.HexAt | contracts/ens/src/keystone/ReceiverTemplate.sol:172-175 | byte i's high and low digit stand at 2i and 2i+1 |
| Utf8.EncodeInjective | packages/identity/ens/src/dns-name.ts:14 | different labels have different encodings |
| ValidText.ValidIffEncoded | apps/macos-client/Sources/DVoDClient/LocalProxyServer.swift:114 | a header's bytes are accepted as text exactly if they are the encoding of a text, and then of one only |
| DnsName.EncodeDnsName | packages/identity/ens/src/dns-name.ts:10-22 | the loop succeeds exactly when every non-empty label takes at most 63 bytes, and returns the hex of the wire form |
| DnsName.DecodeWire | packages/identity/ens/src/dns-name.ts:10-22 | the wire form followed by any suffix decodes to its labels and that suffix |
| DnsName.DecodableIsEncodable | packages/identity/ens/src/dns-name.ts:15-17 | the encoder refuses no name that any wire form decodes to |
| DnsName.EncodingDecodes | packages/identity/ens/src/dns-name.ts:10-22 | the same through the hexadecimal form, for the non-empty labels of any encodable name |
| DnsName.WireIsPrefixFree | packages/identity/ens/src/dns-name.ts:10-22 | no wire form is a proper prefix of another |
| DnsName.EncodedAlike | packages/identity/ens/src/dns-name.ts:11-19 | two names are encoded alike exactly when their non-empty labels agree |
| DnsName.WireNamesNode | packages/identity/ens/src/capability-record.ts:54-55 | wire form and name hash mean the same node exactly when no label is empty |
| TierList.TiersRoundTrip | packages/identity/ens/src/client.ts:65 | a stored tier list of any length parses back to itself |
| Keystone.PackedFields | contracts/ens/src/keystone/ReceiverTemplate.sol:179-188 | the overlapping loads and the 96-bit shift return exactly the three packed fields, whatever follows them |
| Keystone.TopOctets | contracts/ens/src/keystone/ReceiverTemplate.sol:185 | a right shift by whole bytes keeps the leading bytes' number |
| Keystone.GateMeaning | contracts/ens/src/keystone/ReceiverTemplate.sol:79-109 | a packed report passes exactly when sender and every configured field agree, a configured name needing a configured author |
| Keystone.StoredNamePinsHash | contracts/ens/src/keystone/ReceiverTemplate.sol:148-154 | the stored name is never the disabling zero, and two texts are stored alike exactly when their hashes share five bytes |
| Keystone.StoredNameDigits | contracts/ens/src/keystone/ReceiverTemplate.sol:148-154 | the stored name is the hexadecimal digits of the hash's first five bytes, high digit first |
| Keystone.BytesToHexString | contracts/ens/src/keystone/ReceiverTemplate.sol:168-177 | the loop fills the buffer with exactly the hexadecimal digits |
| Keystone.Receiver.SetExpectedWorkflowName | contracts/ens/src/keystone/ReceiverTemplate.sol:137-156 | the owner's call stores the first ten digits, or zero for the empty text; anyone else's changes nothing |
| Keystone.Receiver.OnReport | contracts/ens/src/keystone/ReceiverTemplate.sol:79-112 | the nested checks give the gate's verdict |
| Registry.BuildRegisterOperatorCalls | packages/identity/ens/src/capability-record.ts:45-136 | the call list is built exactly for names with a first label whose labels all fit |
| Registry.RegistrationPerformed | packages/identity/ens/src/capability-record.ts:57-136 | executed by the root admin, the calls write the five records and grant four roles and change nothing else |
| Registry.RecordReadsBack | packages/identity/ens/src/client.ts:21-69 | a registered record reads back as its parameters with status active, and fails exactly for a bad endpoint, an empty tier list or an empty hash |
| Registry.AddressRoundTrip | packages/identity/ens/src/client.ts:57 | an address padded to a word decodes to itself |
| Registry.WatchdogMayRevokeIff | packages/identity/ens/src/capability-record.ts:54-134 | the watchdog gets its role on the record's own node exactly when no label of the name is empty |
| RegistryRuns.StepKeeps | contracts/ens/src/WatchdogRevoker.sol:49-86 | no step by another account moves a payout address or a role, and a status only to revoked, with one event |
| RegistryRuns.RunKeeps | contracts/ens/src/WatchdogRevoker.sol:49-86 | the same from the start to the end of any run |
| RegistryRuns.TextChangedByKey | contracts/ens/test/mocks/MockDvodResolver.sol:31-37 | only endpoint and tiers ever change, and only by an operational key registered for that node |
| RegistryRuns.DataChangedByKey | contracts/ens/test/mocks/MockDvodResolver.sol:31-37 | a data record changes only as a hash by such a key, an enrolled node's hash, or a status become revoked |
| RegistryRuns.KeyedIsOwnerIff | packages/identity/ens/src/capability-record.ts:54-127 | in every fleet the keys' roles are on their own operators' records, all of them and no other node, exactly when no name has an empty label |
| RegistryRuns.EmptyLabelMisdirects | packages/identity/ens/src/capability-record.ts:54-55 | two operators registered together, distinct nodes and keys, where the first one's key writes over the second one's endpoint |
| RegistryRuns.FleetReadsBack | packages/identity/ens/src/client.ts:21-69 | every operator of a set registered together reads back as registered |
| RegistryRuns.FleetIsSafe | packages/session-spec/src/capability-record.ts:11-19 | in every run by other accounts each operator keeps its payout address, is active or revoked, and has emitted one Revoked event if revoked and none otherwise |
| RegistryRuns.FleetIsOwned | packages/session-spec/src/capability-record.ts:11-19 | at every step of every run a text or hash changes only by an operational key registered for that node (its own operator's, with plain names), an enrolled refresh, or a revocation |
| RegistryRuns.CheckDecides | contracts/ens/src/WatchdogRevoker.sol:49-55 | at every moment a check reverts exactly on a short published hash, and otherwise revokes exactly an active operator whose report does not match |
| RegistryRuns.ShortHashStopsChecks | contracts/ens/src/WatchdogRevoker.sol:49-55 | at any moment of any run an operator's key can publish a short hash, after which no check changes its status until the hash is written again |
| RegistryRuns.RevokedForever | contracts/ens/src/WatchdogRevoker.sol:75-86 | once revoked, revoked for the rest of the run |
| RegistryRuns.RefreshedReadsBack | contracts/ens/src/AttestationRefresherReceiver.sol:30-34 | a refresh that goes through changes the record read back in its hash and nothing else |
| RegistryDecisions.AdminDecides | contracts/ens/src/WatchdogRevoker.sol:69-86 | at every moment of every run the manual revocation is the admin's alone and always goes through, revoking an operator still active with both events and leaving one already revoked as it was |
| RegistryDecisions.AdminNeedsRole | contracts/ens/src/WatchdogRevoker.sol:78-86 | where the watchdog has no role the revocation reverts, unless it is done already |
| RegistryDecisions.CheckAnnounces | contracts/ens/src/WatchdogRevoker.sol:49-55 | a check that revokes writes the status and its one event and nothing else |
| RegistryDecisions.RefreshDecides | contracts/ens/src/AttestationRefresherReceiver.sol:30-34 | at every moment of every run a report goes through exactly if the gate accepts it and its node was enrolled, and then writes its hash and one event and nothing else |
| RegistryDecisions.ChangesAreDecided | contracts/ens/src/WatchdogRevoker.sol:49-86 | at every step of every run a status changes only by the admin or by a report that does not hash to the published value, and a hash only by a key with its role or a report the gate accepted |
| RegistryDecisions.RecordReadsIff | packages/identity/ens/src/client.ts:21-69 | at every moment of every run an operator's record reads exactly if endpoint, tiers and hash are fit, and then shows what is stored, the registered payout address and a status that is revoked exactly if the chain's is |
| RegistryDecisions.RevokedReadsBack | packages/identity/ens/src/client.ts:58 | a revocation changes the record read back in its status and nothing else |
| RegistryContracts.PermissionedResolver.SetData | contracts/ens/test/mocks/MockDvodResolver.sol:31-37 | the storage write happens exactly for the root admin and granted accounts |
| RegistryContracts.WatchdogRevoker.Revoke | contracts/ens/src/WatchdogRevoker.sol:78-86 | read, write and event happen as the transaction function says, reverts included |
| RegistryContracts.WatchdogRevoker.SubmitAttestationCheck | contracts/ens/src/WatchdogRevoker.sol:49-55 | the same for the permissionless check |
| RegistryContracts.WatchdogRevoker.AdminRevoke | contracts/ens/src/WatchdogRevoker.sol:69-73 | the same for the admin's revocation |
| RegistryContracts.AttestationRefresher.OnReport | contracts/ens/src/AttestationRefresherReceiver.sol:30-34 | the same for a gated report |
| Directory.EligibleIff | apps/orchestrator/src/relays.ts:38-41 | a relay is eligible exactly when a record of its name is active and lists the tier |
| Directory.FetchAllIff | apps/orchestrator/src/relays.ts:28-32 | a fetch succeeds exactly when every known operator's record reads, and then holds them all in order |
| Directory.FetchedIsEligibleIff | apps/orchestrator/src/relays.ts:28-41 | in every run over a fleet a known operator is eligible after a fetch exactly when it is not revoked and its stored tiers list the tier |
| Directory.FirstEligible | apps/orchestrator/src/relays.ts:40 | the first eligible relay is the first record that qualifies, and the others follow in the listing's order |
| Directory.CacheWasFetched | apps/orchestrator/src/relays.ts:25-35 | what the cache holds was the chain's state ten seconds before it expires |
| Directory.ListingIsRecent | apps/orchestrator/src/relays.ts:25-35 | every listing is the chain's state now or at a moment less than ten seconds ago |
| Directory.ServedFromCache | apps/orchestrator/src/relays.ts:26 | and within ten seconds of a fetch it is what was fetched, whatever the chain did since |
| Directory.RevokedNeverListed | apps/orchestrator/src/relays.ts:38-41 | a relay revoked at T is in no eligible list from T + 10 s on |
| Directory.RevokedNeverAssigned | apps/orchestrator/src/routes/failover.ts:43-49 | so neither the first eligible relay nor the failover's search is that relay |
| Assignments.RevokedNeverAssigned | apps/orchestrator/src/routes/sessions.ts:40-100 | in every course of registry, clock, cache and handlers, no row that puts a session on a relay names a relay revoked ten seconds or more before the lookup behind it |
| Assignments.LookupsAreUsed | apps/orchestrator/src/routes/sessions.ts:40-80 | in every course a valid purchase gets the first relay eligible by the listing of its moment, and a choosing failover the first other one or none |
| Directory.OperatorList.List | apps/orchestrator/src/relays.ts:25-35 | the cache variable is used, replaced or left alone as the listing function says |
| Base64.SextetsRoundTrip | packages/session-spec/src/session-token.ts:22 | six-bit groups give back the bytes for every length |
| Base64.LenientRoundTrip | packages/session-spec/src/session-token.ts:35 | the base64url text of any bytes decodes to them |
| Base64.StrictRoundTrip | apps/macos-client/Sources/DVoDClient/SessionToken.swift:17-21 | alphabet swap and padding give a strict decoder the same bytes for every length modulo three |
| Base64.StrictReadsIff | apps/macos-client/Sources/DVoDClient/SessionToken.swift:20-21 | an unpadded text reads after padding exactly if no single character is left over and all are of the alphabet |
| Base64.SextetsAreTheNumber | packages/session-spec/src/session-token.ts:22 | the groups are the base-64 digits of the number whose base-256 digits the bytes are |
| SessionToken.OneDot | packages/session-spec/src/session-token.ts:21-24 | an issued token has exactly one dot |
| SessionToken.IssuedVerifies | packages/session-spec/src/session-token.ts:26-38 | an issued token verifies to its payload until it expires and is rejected afterwards |
| SessionToken.OtherSecret | packages/session-spec/src/session-token.ts:30-33 | under another secret it is rejected exactly when the two keyed hashes differ or it has expired |
| SessionToken.OtherBody | packages/session-spec/src/session-token.ts:30-33 | another body under the same signature passes only on a hash collision |
| SessionToken.VerifiesIff | packages/session-spec/src/session-token.ts:26-38 | a body and signature of any form are accepted exactly if the signature is the keyed hash's text and the body reads as a payload that has not expired |
| SessionToken.DecodeBody | apps/macos-client/Sources/DVoDClient/SessionToken.swift:15-21 | the padding loop returns the strict decoding of the padded, swapped first piece |
| SessionToken.ClientReadsIssued | apps/macos-client/Sources/DVoDClient/SessionToken.swift:15-23 | from an issued token the client recovers exactly the serialised payload |
| Doubles.RelativeError | apps/web/src/lib/wallet.ts:60-61 | any rounding to nearest moves an ordinary number by at most its 2^53-th part |
| Doubles.RoundingExists | apps/web/src/lib/wallet.ts:60-61 | such a rounding exists |
| Pricing.PricesAgree | apps/orchestrator/src/pricing.ts:15-18 | orchestrator and contract quote the same wei for every tier and number of hours |
| Pricing.HundredthIsCents | apps/orchestrator/src/pricing.ts:21-25 | below 2^50 cents, rounding the quotient to two decimals recovers the cents |
| Pricing.FixedTwoMeansHundredths | apps/orchestrator/src/pricing.ts:24 | the displayed digits denote exactly that many hundredths |
| Pricing.ProductRoundsToCents | apps/web/src/lib/wallet.ts:61 | the rounded product of the parsed dollars rounds to the cents |
| Pricing.DisplayRoundTrip | apps/web/src/lib/wallet.ts:59-63 | below 2^50 cents, displaying and parsing back gives exactly the cents' wei |
| Pricing.RoundTripExists | apps/web/src/lib/wallet.ts:59-63 | and there is such a display and parse for every amount |
| Pricing.QuoteMeetsEscrow | contracts/arc/src/SessionEscrow.sol:77-92 | the wei the browser sends for a quote is the price the contract demands |
| Pricing.HourlyQuotes | apps/orchestrator/src/pricing.ts:4-25 | an hour is displayed as 0.10, 0.35 and 1.00 |
| AppLifecycle.ConnectKeeps | apps/macos-client/Sources/DVoDClient/AppDelegate.swift:129-176 | a connect, on any of its three exits, keeps the invariant, is connected exactly when server and service were had, leaves exactly its own server running, and records the relay and tier shown, or the host and unknown |
| AppLifecycle.DisconnectCleans | apps/macos-client/Sources/DVoDClient/AppDelegate.swift:178-196 | a disconnect from any reachable state leaves no proxy, no service, no timer and no open entry, and closes exactly the open one |
| AppLifecycle.EveryRunKeepsInv | apps/macos-client/Sources/DVoDClient/AppDelegate.swift:129-196 | in every run at most one proxy runs, the services left on are the active one, and an entry of this run is open exactly when connected, being the newest and the remembered one; older history is untouched |
| AppLifecycle.ConnectionsNeverOverlap | apps/macos-client/Sources/DVoDClient/ConnectionHistoryStore.swift:32-43 | on a clock that never runs backwards the recorded connections of a run are one after the other |
| AppLifecycle.ConnectionHistoryStore.RecordDisconnect | apps/macos-client/Sources/DVoDClient/ConnectionHistoryStore.swift:39-43 | closes the first entry with the id, or nothing |
| AppLifecycle.AppDelegate.Connect | apps/macos-client/Sources/DVoDClient/AppDelegate.swift:129-176 | the field updates, early returns included, give the state the connect function says |
| AppLifecycle.AppDelegate.Disconnect | apps/macos-client/Sources/DVoDClient/AppDelegate.swift:178-196 | the same for the disconnect |

## Left out

- Vertex coordinates: a point is any type and a midpoint any function of the two ends; the sphere and the drawing are not modelled.
- Handlers.EveryRunKeepsInv: recording a transition is one atomic step, while the source reads the state and inserts the row in two awaits (apps/orchestrator/src/session-state.ts:29 and 44). `TwoStepWrites.OneStepIff` says for which runs of the two steps this is the same; there the tier that some transitions re-read in between is read with the insertion.
- Handlers.OneTokenPerSession: rests on the same atomicity, and fails without it (`TwoStepWrites.TwoTokens`).
- Failover.UndisturbedFailoverMoves: rests on it too.
- Liveness of a failover: a session left in FAILOVER_SELECT for want of another relay is moved on by no handler, so nothing is claimed about it leaving that state.
- The `detail` and `created_at` columns, and row ids with gaps: ids count the rows from one.
- Replication.CaughtUpIff: broadcasts are taken in insertion order, which `Broadcasts.EveryRunInOrder` shows to hold up to ACTIVE rows, and the snapshot's own state and relay fields (used by the page only when it has no events) as those of its events; failed or repeated snapshot requests, closing and reconnecting sockets are left out.
- Escrow.EveryRunBalances: ether forced into the contract without a call is excluded, and gas is not modelled, so a callee may make any finite number of calls.
- PaidSessions.EveryPaidRowIsBackedIff: transaction hashes are never reused and written in one way, and a purchase, in which the escrow calls nobody, holds no other contract's decodable logs.
- Broadcasts.PageShowsStateOrActive: the page listens from the start and reads no snapshot; sockets keep the order of what is sent.
- ProxyRelay.FarEndsReadEachOther: the connection states, the port check and the error callbacks of the network library are reduced to the end of a stream, and grapheme clusters to single characters.
- Registry.RecordReadsBack: JSON texts of a tier list other than the written form (blanks, escapes) count as unreadable, the URL test is a parameter, and a byte order mark before a status text is not dropped.
- Hashes: keccak, SHA-256 and the keyed hash are parameters. The name hash stands for the list of label octets, which takes it as injective, and labels written as hashes in brackets are left out; comparing two hashes of status texts is comparing the texts.
- The registry contract's own `register` call, resolver role bitmaps and role revocation: the role table is a set of grants, and the resolver behind it is not part of the repository.
- RegistryRuns.FleetIsSafe: steps by the resolver's root admin after registration are excluded, and the watchdog, the refresher and the root admin are three different accounts.
- RegistryRuns.FleetIsOwned: operational keys are neither the watchdog's nor the refresher's address.
- The misbehaviour-proof entry point, which always reverts.
- Utf8.EncodeInjective: unpaired surrogates, which a text encoder replaces, do not occur.
- Directory.ListingIsRecent: a fetch is instantaneous, so its five reads per operator see one chain state, and two lookups do not overlap.
- SessionToken.IssuedVerifies: the payload's JSON form is any encoding that parses back to what was written.
- Pricing.DisplayRoundTrip: parsing is modelled on texts of digits, a point and digits, which is what the display produces; larger amounts, at which the display could change notation, are outside the bound.
- Receiver setters other than the workflow name: each is one owner-checked assignment.
- AppLifecycle.EveryRunKeepsInv: the listing of network services and the commands that switch a proxy on or off are reduced to their answer and effect, and nobody else changes the settings; saving and loading the history file is left out.
- Database migrations, configuration, deployment scripts, generated bindings and all views: nothing in them is part of the properties above.
