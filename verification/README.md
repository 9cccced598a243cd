# Verified models of the Meza server

Meza is a federated chat system.  This project models the state machines its server is made of and
proves what they promise.  Each Dafny module follows one part of the server:

| module | part of the server |
|---|---|
| `Gateway` | the gateway's connection registry: four indexes over live sockets, and every locked fan-out |
| `DeviceRecovery`, `RecoveryLaws`, `RecoveryService`, `RecoveryText` | device recovery: one-time codes, sessions, the Redis scripts and their reply texts |
| `TokenAuth`, `TokenLaws` | access tokens: the verification cache and its sweep, the interceptors, the gateway's first message, the device blocklist |
| `FederationReplay` | single use of federation assertions |
| `RefreshTokens`, `RefreshLaws`, `Revocation` | refresh-token issue, rotation, recovery and logout, and what they mean for revoked devices |
| `Permissions`, `PermissionLaws` | effective permissions and their attribution |
| `Roles`, `RoleLaws`, `RoleRanks`, `RoleService`, `Escalation` | roles: who may grant what, the ranking of roles, the handlers, and what roles and overrides together can give |
| `PermissionCache`, `ResolutionLaws`, `PermissionResolver` | the permission cache, its invalidation, and the single and batch resolvers |
| `OverrideMirror`, `OverrideLaws`, `OverrideHandlers` | permission overrides of voice channels and their companion text channels, and who may change which |
| `DirectMessages`, `DmLaws`, `DmHandlers` | direct messages and message requests, and the handlers over their tables |
| `PushFanout` | notification fan-out in concurrent batches |
| `RateLimit` | the fixed-window limiter |
| `Migrations`, `CqlSplitter` | the migration runner |

The pattern is the same throughout.  A state is a value, a call is a `Step` of it, and a `Run` is any
sequence of calls.  Where the server changes state in place, a class holds what the server's stores hold
and each handler is a method with the handler's own order of checks and its loops, proved to be exactly
one step.  The recovery handlers work on Redis hashes of text fields, with decimal counters, flags that are
the text `true`, state names and script replies; the DM handlers on channel rows with a status text, a
nullable initiator and a textual pair key, and on membership rows; an invariant says how the model's state is
read out of them.  The theorems are about all runs.  The `...Laws` modules say what each single call needs and
leads to in terms of the records alone, and that the run in which everybody does their part succeeds.

What the models take as given: handlers are atomic; random ids and tokens are new each time they are
drawn; hashes are injective and signatures cannot be forged; a Redis key lives strictly before its
expiry, and services and Redis share one clock.  What other services answer (stores that fail, a block
list, a friendship, a rate limit) is a parameter of the call, so the theorems hold for every answer.
Bitfields are sets of bit numbers.  The permission, blocklist and recovery keys are modelled by their
parts rather than by their text, which is the same for ids without colons and for emails that do not begin
with `token:`.  The DM model names a pair by the set of its two ids; `dmPairKey` joins them with a colon, and
`DmHandlers.PairKeysDiffer` shows that the two agree for ids without colons.

Several results say exactly where a promise stops:

- `Permissions.ExplainsIff`: the documentation of `AttributeSources` says it walks the same logic as
  `ResolveEffective`, but it applies role overrides one after another where `ResolveEffective`
  aggregates them.  The two agree on every permission exactly when resolution is bypassed, the channel
  is hidden, or no bit is allowed by one role override of the deciding list, denied without an allow by a
  later one, and not mentioned after that.
- `PermissionCache.FreshIff`: a cached answer differs from present resolution exactly when a timeout of the
  member ran out since it was cached and had changed something; `StaleRun` is such a run.
- `Permissions.TimeoutOnlyRestrictsIff`: a timeout leaves viewing and reading, and so grants them to a member
  who had not both; `TimeoutCanGrant` is an input.
- `RefreshTokens.ClaimSurvivesIff`: the tokens of a federated device all carry the federated claim exactly
  until one is exchanged at the plain refresh endpoint, which mints without it.
- `RoleRanks.MemberAboveStaysIff`: a member with a role above a whole group keeps it exactly until somebody's
  `SetMemberRoles` on that member is accepted, and `AnyoneMayStrip` shows that rank does not prevent one.
- `OverrideMirror.StartsHiddenIff`: a private channel starts hidden exactly when its category has no
  `@everyone` override, or one that hides it; `PrivateCanStartVisible` is the other case.
- `FederationReplay.ReplayableIff`: an assertion can be accepted twice exactly when its first use comes
  more than 105 s before its expiry (for a minted one: more than 45 s before its `iat`).
- `Gateway.ExactAfterIff`: a refresh that commits after `removeClient` leaves the removed socket in the
  indexes if it finds a channel or server that is new to the socket.  After any script the indexes are exact
  exactly when no removed socket was left so; `SendAfterLateRefresh` is a run that sends to a closed socket.
- `Revocation.RevokedIsBackIff`: revoking a device leaves its refresh token.  The device is admitted again
  exactly from one hour after the revocation, if it has exchanged a refresh token since.
- `CqlSplitter.CommentsAreStripped`: comment lines are stripped as documented when none holds a semicolon;
  `CommentCanDiffer` is a script where the rest of a comment is run.

## Model

| member | source | states |
|---|---|---|
| `Gateway.Registry.AddClient` | server/cmd/gateway/gateway.go:686-708 | after adding a socket the indexes are those of the book: every registered socket stands under exactly the keys it names, each once in its user's slice, no entry empty; exact indexes stay exact, and the `clients` map stays exact if and only if no other socket had the key |
| `Gateway.Registry.RemoveClient` | server/cmd/gateway/gateway.go:710-761 | removes the socket from every index, also one left there by a late refresh, drops entries that become empty, closes its send side; the rest is as it was |
| `Gateway.Registry.RefreshClient` | server/cmd/gateway/gateway.go:783-863 | a refresh moves the socket from the keys no longer named to the new ones; exact indexes stay exact if and only if the socket was registered or nothing new was fetched; a failed fetch changes nothing |
| `Gateway.Registry.Replay` | server/cmd/gateway/gateway.go:686-863 | any sequence of connects, disconnects and refreshes, those of removed sockets included, leaves exactly the sockets, lists and index keys that reading the script command by command gives; the registry is valid if and only if no socket is left stray |
| `Gateway.LiveAfter` | server/cmd/gateway/gateway.go:686-761 | a socket is live after a script exactly when it was before, or connected while not closed, and was never disconnected |
| `Gateway.LastFetched` | server/cmd/gateway/gateway.go:783-863 | the lists of a socket are those of its last successful refresh |
| `Gateway.StrayIff` | server/cmd/gateway/gateway.go:807-862 | after any script a socket that is not registered stands under a key if and only if a refresh found the key new to it, every later refresh found it again, and no later removal cleared it |
| `Gateway.ExactAfterIff` | server/cmd/gateway/gateway.go:783-863 | after any script from an exact registry the indexes are exact if and only if that happened to no socket |
| `Gateway.SendAfterLateRefresh` | server/cmd/gateway/gateway.go:161-171 | connect, disconnect, a refresh that finds a channel: the next event on the channel is sent to a closed socket |
| `Gateway.Registry.DeliverChannel` | server/cmd/gateway/gateway.go:161-171 | reaches exactly the registered sockets subscribed to the channel and the strays under it, each once; on a valid registry no stray and none closed |
| `Gateway.Registry.DeliverServerChannel` | server/cmd/gateway/gateway.go:202-222 | on a valid registry a private channel event reaches exactly the channel's subscribers, a public one exactly the server's sockets, each once, none closed |
| `Gateway.Registry.DeliverServer` | server/cmd/gateway/gateway.go:397-405 | reaches exactly the registered sockets of the server and the strays under it, each once; on a valid registry no stray and none closed |
| `Gateway.Registry.DeliverUser` | server/cmd/gateway/gateway.go:258-266 | reaches exactly the registered sockets of the user, each once, none closed |
| `Gateway.Registry.DeliverSharedServers` | server/cmd/gateway/gateway.go:291-319 | presence and profile updates reach a registered socket exactly when it shares a server with a socket of the user, each once; on a valid registry nobody else and none closed |
| `Gateway.Registry.SharedServersAreScanned` | server/cmd/gateway/gateway.go:340-368 | going through the user's servers finds the same sockets as comparing every pair of registered sockets |
| `Gateway.Registry.CloseAll` | server/cmd/gateway/gateway.go:420-432 | shutdown closes only registered sockets, and all of them if and only if the key map is exact |
| `Gateway.RefreshedStrays` | server/cmd/gateway/gateway.go:823-843 | without strays, refreshing a socket leaves none if and only if it is registered or every new key was an old one |
| `Gateway.ChannelEntry` | server/cmd/gateway/gateway.go:161-163 | an index entry equals a plain scan of the registered sockets together with the strays |
| `Gateway.CoherentIff` | server/cmd/gateway/gateway.go:686-761 | both indexes are what a scan of the registered sockets gives if and only if there are no strays |
| `DeviceRecovery.CompletedRecovery` | server/cmd/auth/service_device_recovery.go:464-508 | in every run a completed recovery rests on the code that was mailed out coming back, the token issued for it being consumed, the session opened with it, its approval by the session's own user and the one poll that handed out the approved bundle, in this order, all but the comparison the only one of its kind, within the keys' lifetimes |
| `DeviceRecovery.FewComparisons` | server/cmd/auth/service_device_recovery.go:109-159 | in every run at most five codes are compared against one sent code |
| `DeviceRecovery.OneConsumptionPerRecord` | server/cmd/auth/service_device_recovery.go:170-182 | two consumed tokens never belong to the same incarnation of a code record, even with further sends and verifies in its lifetime |
| `DeviceRecovery.RunKeeps` | server/cmd/auth/service_device_recovery.go:27-606 | in every run the stored records, tokens and sessions fit a history in which every event is justified by earlier ones |
| `DeviceRecovery.HappensOnce` | server/cmd/auth/service_device_recovery.go:351-364 | creation, approval, handing out and completion of a session, and consumption of a record or token, happen at most once |
| `RecoveryLaws.HonestRun` | server/cmd/auth/service_device_recovery.go:27-606 | from any state in which the address has no spent record: sending, verifying with the mailed code, initiating with a good key, approving by the user, polling and completing, each in time, all succeed, the poll gives out the approved bundle, and the account is recovered for the user the code was sent to |
| `RecoveryLaws.CompleteLaw` | server/cmd/auth/service_device_recovery.go:476-606 | a live session whose bundle was handed out is recovered, for its own user, if and only if the inputs are there and the store does its part; each refusal has exactly its cause |
| `RecoveryLaws.CompletedLaw` | server/cmd/auth/service_device_recovery.go:464-508 | the first complete request spends the session; the recovery is on record exactly when the store did its part; otherwise nothing changes |
| `RecoveryLaws.SendReply` | server/cmd/auth/service_device_recovery.go:29-61 | a code is sent exactly for an email and within the limits; otherwise nothing changes |
| `RecoveryLaws.SendLaw` | server/cmd/auth/service_device_recovery.go:79-90 | the record has the new code, no attempts, the user found and five minutes; what was verified or consumed in it stays so; no other record changes |
| `RecoveryLaws.VerifyLaw` | server/cmd/auth/service_device_recovery.go:109-164 | a token is issued exactly for the live record's code with fewer than five attempts behind it, and is stored in record and index for five minutes |
| `RecoveryLaws.RefusedReply` | server/cmd/auth/service_device_recovery.go:109-138 | each refusal of a code has exactly its cause |
| `RecoveryLaws.AttemptsLaw` | server/cmd/auth/service_device_recovery.go:114-125 | every attempt counts, and the sixth costs the record |
| `RecoveryLaws.RefusedLaw` | server/cmd/auth/service_device_recovery.go:109-138 | a refused code changes no other record, no token and no session |
| `RecoveryLaws.InitiateLaw` | server/cmd/auth/service_device_recovery.go:203-330 | a session opens exactly for a good key and a live, verified, unconsumed token of a record with a user, within the limits; each other answer has exactly its cause |
| `RecoveryLaws.SpentLaw` | server/cmd/auth/service_device_recovery.go:170-182 | a good token is spent whatever follows; without one nothing changes |
| `RecoveryLaws.OpenedLaw` | server/cmd/auth/service_device_recovery.go:286-294 | the session is pending for the record's user with the key given, for five minutes |
| `RecoveryLaws.PollLaw` | server/cmd/auth/service_device_recovery.go:351-405 | each poll answer means exactly one phase of the session, and the bundle comes out exactly when approved |
| `RecoveryLaws.PolledLaw` | server/cmd/auth/service_device_recovery.go:357-362 | handing the bundle out completes the session and gives it ten minutes; any other poll changes nothing |
| `RecoveryLaws.ApproveLaw` | server/cmd/auth/service_device_recovery.go:424-461 | an approval is stored exactly for a pending live session by its own user with a bundle of 124 bytes; each refusal has exactly its cause |
| `RecoveryLaws.ApprovedLaw` | server/cmd/auth/service_device_recovery.go:410-422 | the bundle and the approver are stored, the lifetime stays; a refusal changes nothing |
| `RecoveryLaws.CleanupLaw` | server/cmd/auth/service_device_recovery.go:576-586 | the clean-up removes the one session |
| `RecoveryLaws.SessionIdIs` | server/cmd/auth/service_device_recovery.go:333-340 | a session id is exactly sixty-four hex digits |
| `RecoveryService.Service.SendCode` | server/cmd/auth/service_device_recovery.go:27-107 | one send: code hash, zero counter and user id are written to the hash, its other fields stay, and its lifetime starts anew |
| `RecoveryService.Service.VerifyCode` | server/cmd/auth/service_device_recovery.go:109-159 | one verification: the counter is raised in its decimal text first, then the limit, the stored hash and the code are checked, and a token is stored in both keys |
| `RecoveryService.Service.InitiateDeviceRecovery` | server/cmd/auth/service_device_recovery.go:203-332 | one initiation: key checks, consumption by the script, and a session hash or a fake id that names none |
| `RecoveryService.Service.PollDeviceRecovery` | server/cmd/auth/service_device_recovery.go:351-408 | one poll: the script hands an approved bundle out, writes `completed` and a new lifetime, and the reply is read back |
| `RecoveryService.Service.ApproveDeviceRecovery` | server/cmd/auth/service_device_recovery.go:410-462 | one approval by the script: only while the state is `pending`, only by the session's own user |
| `RecoveryService.Service.CompleteDeviceRecovery` | server/cmd/auth/service_device_recovery.go:464-606 | one completion: acts on the user and approver read back from the script's reply, only once, and answers as the store did |
| `RecoveryService.Service.RunConsumeScript` | server/cmd/auth/service_device_recovery.go:170-182 | the script on the text fields answers and writes what the protocol's consumption does |
| `RecoveryService.Service.Handle` | server/cmd/auth/service_device_recovery.go:27-606 | any call on the hashes is one step of the protocol on the records read out of them, after Redis has dropped what expired |
| `RecoveryText.HexRoundTrip` | server/cmd/auth/service_device_recovery.go:392-402 | decoding the hex of any byte string gives it back |
| `RecoveryText.ConsumeReadsBack` | server/cmd/auth/service_device_recovery.go:286-300 | the user in an `ok:` reply is read back as it was written |
| `RecoveryText.PollReadsBack` | server/cmd/auth/service_device_recovery.go:392-402 | the bundle in an `approved:` reply is read back as it was written |
| `RecoveryText.CompleteReadsBack` | server/cmd/auth/service_device_recovery.go:505-508 | user and approver are read back from `ok:user:approver` if and only if the user id has no colon |
| `TokenAuth.VerificationCache.Lookup` | server/internal/auth/jwt.go:328-342 | a cached token answers exactly while it is not past |
| `TokenAuth.VerificationCache.Put` | server/internal/auth/jwt.go:344-362 | the cache never exceeds its limit; a full cache gives up at most one past entry, keeps every live one, and stores the new token whenever there was room or a past entry |
| `TokenAuth.VerificationCache.SweepCollect` | server/internal/auth/jwt.go:365-380 | phase one of the sweep collects exactly the keys past at its start |
| `TokenAuth.VerificationCache.SweepDelete` | server/internal/auth/jwt.go:380-391 | phase two drops exactly the collected keys whose present entry is past at that start |
| `TokenAuth.VerificationCache.ValidateThrough` | server/internal/auth/connect_interceptor.go:131-150 | validation through the cache answers and fills it as the model says |
| `TokenAuth.VerificationCache.AuthenticateFirstMessage` | server/cmd/gateway/gateway.go:654-681 | one first message: cache, then signature and refresh check, then the blocklist even on a hit; refresh claims are not stored |
| `TokenAuth.TokenBlocklist.BlockDevice` | server/internal/auth/token_blocklist.go:27-35 | the device's key is set with its lifetime and other keys stay; without Redis it fails and nothing changes |
| `TokenAuth.TokenBlocklist.IsDeviceBlocked` | server/internal/auth/token_blocklist.go:37-48 | blocked exactly while the key lives, and always when Redis cannot be asked |
| `TokenAuth.CacheAgrees` | server/internal/auth/connect_interceptor.go:131-150 | after every run the cached answer equals the direct one if and only if it is not a cached token at its exact expiry instant |
| `TokenAuth.CacheStaysBounded` | server/internal/auth/jwt.go:344-391 | no interleaving of puts and the two sweep phases exceeds 50000 entries |
| `TokenAuth.SweepDropsOnlyPast` | server/internal/auth/jwt.go:365-391 | finishing a sweep, whatever happened since it began, drops only entries that are past and changes no other |
| `TokenAuth.InterceptorVerdict` | server/internal/auth/connect_interceptor.go:22-129 | after every run who is identified, rejected or let in anonymously depends on the token alone and not on the cache, the expiry instant apart; a refresh token, a blocked device, a missing user or, where barred, a token that carries the federated claim is never identified |
| `TokenAuth.GatewayVerdict` | server/cmd/gateway/gateway.go:654-681 | after every run of a gateway a token is accepted exactly when it is valid, no refresh token, and its device not blocked, the expiry instant apart |
| `TokenAuth.GatewayCachesNoRefresh` | server/cmd/gateway/gateway.go:654-676 | no run of a gateway puts refresh claims in its cache |
| `TokenAuth.GatewayNeverAcceptsRefresh` | server/cmd/gateway/gateway.go:654-681 | so a cache hit cannot skip the refresh check |
| `TokenAuth.StaysBlocked` | server/internal/auth/token_blocklist.go:27-48 | a device blocked at r stays on the list until r plus one hour, through any run |
| `TokenAuth.RevokedDeviceIsLockedOut` | server/internal/auth/connect_interceptor.go:91-107 | after a revocation at r no access token issued for the device at or before r identifies anyone at an interceptor with the blocklist, cached or not, except at its expiry instant when that is r plus one hour |
| `TokenAuth.RevokedDeviceCannotConnect` | server/cmd/gateway/gateway.go:654-681 | the same at the gateway |
| `TokenAuth.BlockAll` | server/cmd/auth/service.go:715-739 | on success every deleted device is blocked for a full hour; other entries are as they were |
| `TokenLaws.DirectIs` | server/internal/auth/jwt.go:196-297 | a token validates exactly when signed, begun, of no special purpose, with a user, and before its expiry |
| `TokenLaws.InterceptIs` | server/internal/auth/connect_interceptor.go:22-129 | an interceptor identifies exactly a validated token that is no refresh token and that blocklist, user check and federation bar let through, and passes anonymously exactly clients and public calls |
| `TokenLaws.GatewayIs` | server/cmd/gateway/gateway.go:654-684 | the gateway takes exactly a cached token or a validated one that is no refresh token, on a device that is not blocked, and caches what it validates |
| `TokenLaws.ValidateCacheIs` | server/internal/auth/connect_interceptor.go:131-150 | exactly a direct validation with an expiry is cached |
| `TokenLaws.PutIs` | server/internal/auth/jwt.go:344-362 | with room the entry is added; a full cache gives up a past entry or takes nothing |
| `TokenLaws.SweepIs` | server/internal/auth/jwt.go:365-391 | a sweep drops exactly what was past at its start and still is for that instant |
| `TokenLaws.BlockIs` | server/internal/auth/token_blocklist.go:27-48 | a device is blocked for exactly the lifetime of its key, and every device when Redis cannot be asked |
| `TokenLaws.HonestToken` | server/internal/auth/jwt.go:131-157 | a fresh access token identifies its user at interceptor and gateway for its hour, wherever the device is not blocked |
| `FederationReplay.MintedVerifiesIff` | server/internal/auth/jwt.go:176-193 | a minted assertion verifies exactly at the host it was made for, from the trusted origin, with a subject and key id, until 75 s after its `iat` |
| `FederationReplay.Federation.ConsumeJti` | server/cmd/auth/federation_service.go:41-52 | first use exactly when no live key exists, and then a key for 120 s |
| `FederationReplay.Federation.Present` | server/cmd/auth/federation_service.go:180-206 | the checks of both endpoints in their order; a key is set only by an accepted assertion |
| `FederationReplay.AcceptancesAreApart` | server/cmd/auth/federation_service.go:192-206 | in every run two acceptances of one jti, by either endpoint, lie at least 120 s apart |
| `FederationReplay.ReplayableIff` | server/cmd/auth/federation_service.go:41-79 | an assertion first accepted at t can be accepted again if and only if it has no expiry or t is more than 105 s before it |
| `FederationReplay.MintedIsAcceptedOnce` | server/cmd/auth/federation_service.go:373-387 | no minted assertion is accepted twice in any run of joins and refreshes whose first use is no earlier than 45 s before its `iat` |
| `FederationReplay.AnswerIs` | server/cmd/auth/federation_service.go:180-206 | an assertion is accepted exactly when the request is complete, it is good for this host at this time, has an id and the id has no live key; then, and only then, a key is set for 120 s |
| `FederationReplay.HonestAssertion` | server/cmd/auth/federation_service.go:373-387 | a minted assertion is accepted where it is meant for, and not again within 120 s |
| `RefreshTokens.RefreshTable.IssueTokens` | server/cmd/auth/service.go:169-179 | one issue for a new device, without the federated claim (also Login), or with it for FederationJoin at federation_service.go:261-274 |
| `RefreshTokens.RefreshTable.RecoverAccount` | server/cmd/auth/service.go:911-950 | one recovery: the user's rows are deleted save kept devices, then a token is issued for a new device, with every store failure |
| `RefreshTokens.RefreshTable.RefreshToken` | server/cmd/auth/service.go:331-367 | one rotation: a token, with or without the federated claim, is exchanged only if it validates and its row is live, and the new one is made from the row without the claim |
| `RefreshTokens.RefreshTable.RefreshFederated` | server/cmd/auth/federation_service.go:352-438 | the same at the federated endpoint, made from the claims and with the federated claim, after all other checks |
| `RefreshTokens.RefreshTable.LogOut` | server/cmd/auth/service.go:251-278 | one logout, as `RefreshLaws.LogoutLaw` says row by row |
| `RefreshTokens.RunKeeps` | server/internal/store/auth_store.go:338-391 | in every reachable state each minted token is stored, exchanged or revoked and only one of these, rows repeat their token's claims, and no device has two unspent tokens |
| `RefreshTokens.ExchangedOnce` | server/cmd/auth/service.go:344-348 | no token is exchanged by two calls of a run, across both endpoints |
| `RefreshTokens.OneTokenAhead` | server/cmd/auth/service.go:331-367 | in every reachable state a device has received at most one more refresh token than it has given back |
| `RefreshLaws.LogoutLaw` | server/internal/store/auth_store.go:362-374 | a logout takes exactly the rows of the user's one device |
| `RefreshLaws.RecoverLaw` | server/cmd/auth/service.go:911-950 | a recovery leaves exactly the old rows of other users and of kept devices, and adds one row for the new device when every store call succeeds |
| `RefreshLaws.IssueLaw` | server/cmd/auth/service.go:169-179 | an issue adds exactly one row, for thirty days, or none when the store fails |
| `RefreshLaws.RefreshLaw` | server/cmd/auth/service.go:331-367 | a refresh is granted exactly for a signed, unexpired refresh token with a live row; it gives one row for one, for the row's user and device; a bad token changes nothing |
| `RefreshLaws.FederationRefreshLaw` | server/cmd/auth/federation_service.go:352-438 | the same at the federated endpoint, which also asks for the assertion and the matching user |
| `RefreshLaws.BooksLaw` | server/internal/store/auth_store.go:338-391 | what each call adds to the tokens minted, the devices drawn and the rows deleted unexchanged |
| `RefreshLaws.HonestLine` | server/cmd/auth/service.go:331-367 | a device that exchanges each token within thirty days always gets the next |
| `RefreshTokens.ClaimSurvivesIff` | server/cmd/auth/service.go:96-99 | in every run all tokens of a device issued with the federated claim carry it if and only if none was exchanged at the plain endpoint |
| `RefreshTokens.PlainRefreshDropsClaim` | server/cmd/auth/service.go:331-367 | the run federated join, then plain refresh: the stored, acceptable new token is without the claim |
| `Revocation.RevokedIsBackIff` | server/cmd/auth/service.go:687-712 | in every joint run of service and refresh-token calls some access token of a revoked device is admitted if and only if one hour has passed since the revocation and the device has exchanged a refresh token since, for a token that still lasts |
| `Revocation.OldOrExchanged` | server/cmd/auth/service.go:331-367 | in every joint run each access token of a revoked device ends within one hour of the revocation or comes from a later exchange |
| `Revocation.AdmittedIsIdentified` | server/internal/auth/connect_interceptor.go:91-107 | admission is what an interceptor with the blocklist goes by, the instant of a cached token's expiry apart |
| `Revocation.ComesBack` | server/cmd/auth/service.go:703-710 | the run issue, revoke, refresh a second later: the device is admitted when the block ends |
| `Permissions.ResolveEffective` | server/internal/permissions/permissions.go:335-393 | the bitfield computed is exactly the granted bits: the most specific scope that mentions a bit decides it, an allow beats every deny within a scope, unscoped bits come from the base alone, and owner, Administrator, timeout and hidden channel act as documented |
| `Permissions.AttributeSources` | server/internal/permissions/permissions.go:142-303 | every bit is attributed to the scope that decides it, or to the first role that grants it, with the verdict of the last override of that scope |
| `PermissionLaws.GrantedIs` | server/internal/permissions/permissions.go:335-393 | owner and administrator have every known bit, a timeout leaves viewing and reading, a hidden channel nothing, and otherwise a bit is effective exactly when decided so |
| `PermissionLaws.DecidedIs` | server/internal/permissions/permissions.go:335-393 | channel before category, user before role: the first that speaks of a bit decides it, an allow beating the denies beside it, and @everyone and the roles decide what none speaks of |
| `PermissionLaws.ScopedIs` | server/internal/permissions/permissions.go:30-60 | the nineteen bits that overrides can decide |
| `PermissionLaws.CreditIs` | server/internal/permissions/permissions.go:142-230 | a base permission is credited to @everyone, else to the first role that has it |
| `Permissions.ExplainsIff` | server/internal/permissions/permissions.go:139-141 | the attribution agrees with the effective permissions on every bit if and only if resolution is bypassed, the channel is hidden, or no bit is allowed in the deciding role list, denied without an allow further on, and not mentioned after that |
| `Permissions.WalkDiffersIff` | server/internal/permissions/permissions.go:231-246 | aggregating a list of role overrides and walking it disagree on a bit exactly when the last override that mentions it denies it without allowing it and an earlier one allows it |
| `Permissions.ExplanationCanDisagree` | server/internal/permissions/permissions.go:231-246 | a concrete member whose explanation denies what the permissions grant |
| `Permissions.TimeoutOnlyRestrictsIff` | server/internal/permissions/permissions.go:335-393 | a timeout grants nothing new if and only if the member is owner or administrator or could already view and read |
| `Permissions.TimeoutCanGrant` | server/internal/permissions/permissions.go:335-393 | a member who may not view a channel views it while timed out |
| `Roles.NoEscalation` | server/cmd/chat/service_moderation.go:291-330 | over any run whose callers belong to a group without the owner, every bit a member holds at the end was the member's own or held in the group at the start, Administrator expanded |
| `Roles.NoEscalationForEveryone` | server/cmd/chat/service_moderation.go:770-803 | the same for the @everyone role |
| `Roles.UnionNeverGrows` | server/cmd/chat/service_moderation.go:679-705 | over any run by non-owners the permissions held by non-owners or @everyone never grow |
| `Roles.StepGrants` | server/cmd/chat/service.go:223-252 | a bit gained in one call was the user's already or the caller's to grant |
| `Escalation.NoEscalationInChannels` | server/cmd/chat/service_permission_overrides.go:152-166 | over any run of role, override and channel calls without the owner's authority, a bit granted in any channel to anybody but the owner was in a role, in @everyone or allowed by an override at the start, viewing and reading under a timeout apart |
| `Escalation.RunAvailable` | server/cmd/chat/service_moderation.go:679-705 | over any such run the bits that roles hold, Administrator expanded, or overrides allow never grow |
| `RoleRanks.RunRanks` | server/internal/store/role_store.go:25-59 | in every run the positions of the roles other than @everyone are exactly 1, 2, ... without gaps, so the uniqueness constraint never fires |
| `RoleRanks.ReorderIs` | server/internal/store/role_store.go:205-301 | a reorder puts the listed roles, in their order, at the bottom and leaves every role the caller does not outrank at its position |
| `RoleRanks.HierarchyHolds` | server/cmd/chat/service_moderation.go:836-873 | over any run by a group without the owner, the roles at or above the whole group survive, keep permissions and distances, and stay out of its reach |
| `RoleRanks.MemberAboveStaysIff` | server/cmd/chat/service_moderation.go:232-330 | over any run by a group without the owner, a member with a role at or above the whole group keeps it, and stays out of reach of kicks and bans, if and only if no SetMemberRoles on the member is accepted and the member does not leave |
| `RoleRanks.AnyoneMayStrip` | server/cmd/chat/service_moderation.go:239-276 | a caller who manages roles may empty the roles of any other member but the owner, whatever their rank, and may then kick them |
| `RoleRanks.DeleteRanks` | server/internal/store/role_store.go:157-203 | deleting a role closes exactly its gap |
| `RoleRanks.DedupedIs` | server/cmd/chat/service_moderation.go:278-289 | the cleaned list repeats nothing and loses nothing but @everyone |
| `RoleLaws.BanLasts` | server/cmd/chat/service_moderation.go:463-545 | whoever is banned stays banned and is never a member, through every run in which the ban is not lifted |
| `RoleLaws.BanLaw` | server/cmd/chat/service_moderation.go:463-524 | a ban is accepted exactly for a caller with the permission, not on oneself, the owner or a banned user, and on a member only from above; it is recorded, the target is no member, and nothing else changes |
| `RoleLaws.UnbanLaw` | server/cmd/chat/service_moderation.go:586-619 | a ban is lifted exactly by somebody with the permission, and nobody becomes a member by it |
| `RoleLaws.KickLaw` | server/cmd/chat/service_moderation.go:367-417 | a kick is accepted exactly from above and with the permission; the target is no member, and nothing else changes |
| `RoleLaws.SetMemberRolesLaw` | server/cmd/chat/service_moderation.go:232-330 | an assignment is accepted exactly for existing roles below the caller with bits the caller holds, not on oneself or the owner; the target then has exactly the listed roles |
| `RoleLaws.CreateRoleLaw` | server/cmd/chat/service_moderation.go:656-720 | a created role has the permissions given and stands above all others; accepted exactly for bits the caller holds |
| `RoleLaws.UpdateRoleLaw` | server/cmd/chat/service_moderation.go:728-806 | an updated role has the permissions given at its old position; accepted exactly for a role below the caller and bits the caller holds |
| `RoleLaws.DeleteRoleLaw` | server/cmd/chat/service_moderation.go:836-873 | a deleted role is gone from the server and from every member, and the roles above close the gap |
| `RoleLaws.MayReorderIs` | server/cmd/chat/service_moderation.go:932-984 | a reorder is accepted exactly for a list of all the roles below the caller |
| `RoleLaws.ReorderRolesLaw` | server/internal/store/role_store.go:205-301 | a reorder changes positions alone; a refused one nothing |
| `RoleLaws.JoinLeaveLaw` | server/cmd/chat/service.go:2647-2690 | whoever is neither member nor banned may join, without roles; whoever but the owner may leave |
| `RoleService.RequirePermission` | server/cmd/chat/service.go:223-252 | denies exactly non-members and members without the permission, and reports the caller's combined bits and top position |
| `RoleService.CheckSetRoles` | server/cmd/chat/service_moderation.go:239-330 | accepts exactly the assignments allowed by membership, owner and self protection, existence, hierarchy and no escalation |
| `RoleService.ChatService.SetMemberRoles` | server/cmd/chat/service_moderation.go:232-330 | one assignment: the target holds exactly the listed roles, or nothing changes |
| `RoleService.ChatService.CreateRole` | server/cmd/chat/service_moderation.go:656-720 | one creation at the top position, with bits the caller holds |
| `RoleService.ChatService.UpdateRole` | server/cmd/chat/service_moderation.go:728-806 | one update of a role the caller outranks, with bits the caller holds; @everyone keeps its name |
| `RoleService.ChatService.DeleteRole` | server/cmd/chat/service_moderation.go:836-873 | one deletion of a role the caller outranks, never @everyone |
| `RoleService.ChatService.ReorderRoles` | server/cmd/chat/service_moderation.go:932-984 | one reorder, accepted exactly for a list of all roles below the caller, as two statements one after the other |
| `RoleService.ChatService.KickMember` | server/cmd/chat/service_moderation.go:367-417 | one kick: never oneself or the owner, only a member the caller outranks |
| `RoleService.ChatService.BanMember` | server/cmd/chat/service_moderation.go:463-545 | one ban: the same, and pre-emptively for a non-member; recorded, as `RoleLaws.BanLaw` says |
| `RoleService.ChatService.UnbanMember` | server/cmd/chat/service_moderation.go:586-619 | one lifting of a ban |
| `PermissionCache.CacheIsSound` | server/cmd/chat/service.go:296-369 | in every run of resolves, role, timeout and override changes, each cached value equals resolution on the current tables for the instant it was cached |
| `PermissionCache.FreshIff` | server/internal/permissions/cache.go:34-56 | in every run with a forward clock an answer equals present resolution if and only if it is not cached, the member is owner or administrator, no timeout ran out since it was cached, or the timeout left the member's permissions as they were |
| `PermissionCache.StaleRun` | server/internal/permissions/cache.go:34-56 | the run timed out until 100, resolved at 99, asked at 101 is answered with the two timeout bits although the truth is larger |
| `PermissionCache.ChangeIsSeenAtOnce` | server/cmd/chat/service_permission_overrides.go:218-219 | if a change alters what a key resolves to, the next answer for it is resolved afresh |
| `PermissionCache.TimeoutTakesEffect` | server/cmd/chat/service_moderation.go:1078-1142 | after a timeout the next answer for a member who is neither owner nor administrator is viewing and reading alone, granted even where they were not before |
| `PermissionCache.SurvivorAgrees` | server/internal/permissions/cache.go:58-80 | what survives an invalidation reads the same rows before and after the change |
| `PermissionCache.OrderIsIrrelevant` | server/internal/store/permission_override_store.go:170-221 | resolution does not depend on the order in which rows come back |
| `ResolutionLaws.RowIsReadIff` | server/internal/store/permission_override_store.go:170-221 | an override row is read exactly when it lies on the channel or its category and is for @everyone, a role of the member, or the member |
| `ResolutionLaws.DescribedIsRead` | server/cmd/chat/service.go:296-369 | the queries read exactly the permissions of @everyone and of the member's roles in the server, the timeout, and those rows |
| `ResolutionLaws.AnswerIsGranted` | server/cmd/chat/service.go:350-366 | the answer is what the bit rule grants on any input so described |
| `ResolutionLaws.HiddenFromEveryone` | server/cmd/chat/service.go:350-366 | on a channel whose @everyone row denies viewing, whoever is neither owner, administrator nor timed out, and is shown it by no row of their own or of their roles, has no permission |
| `ResolutionLaws.MemberWrites` | server/cmd/chat/service_moderation.go:325-333 | an assignment or a timeout changes exactly the one membership |
| `ResolutionLaws.RoleWrites` | server/internal/store/role_store.go:25-203 | creating, updating and deleting a role change exactly its row, its assignments and its overrides; a reorder nothing that resolution reads |
| `ResolutionLaws.SetWrites` | server/cmd/chat/service_permission_overrides.go:168-191 | setting an override changes exactly the row asked for and its companion's |
| `ResolutionLaws.DeleteWrites` | server/cmd/chat/service_permission_overrides.go:298-339 | deleting one takes exactly those rows |
| `ResolutionLaws.SyncWrites` | server/internal/store/chat_store.go:600-630 | a sync takes exactly the channel's rows |
| `ResolutionLaws.InvalidationIs` | server/internal/permissions/cache.go:58-101 | each change drops exactly the entries of its member, server or channel |
| `ResolutionLaws.FillIs` | server/internal/permissions/cache.go:34-56 | a resolution is cached for five minutes and changes no other entry |
| `PermissionResolver.SplitByChannel` | server/internal/store/permission_override_store.go:280-343 | one scan splits the joined rows into exactly each channel's overrides |
| `PermissionResolver.JoinFindsTheChannel` | server/internal/store/permission_override_store.go:289-305 | the joined query loses nothing by requiring the channel row |
| `PermissionResolver.Resolver.ResolvePermissions` | server/cmd/chat/service.go:296-369 | answers the cached value or the truth of the tables, caches the latter, and fails exactly when server, @everyone or member are missing |
| `PermissionResolver.Resolver.ResolvePermissionsBatch` | server/cmd/chat/service.go:456-541 | on success the answers are the single resolver's, channel by channel, and the cache is what resolving them one after another would leave |
| `PermissionResolver.DeleteByPattern` | server/internal/permissions/cache.go:83-101 | whatever the scan order, exactly the keys of the pattern are gone and the others keep their values |
| `PermissionResolver.Resolver.SetMemberRoles` | server/cmd/chat/service_moderation.go:325-333 | one role assignment with its invalidation, after which every cached value is still what the tables give |
| `PermissionResolver.Resolver.TimeoutMember` | server/cmd/chat/service_moderation.go:1135-1142 | one timeout, or its removal at line 1230, with its invalidation, after which every cached value is still what the tables give |
| `PermissionResolver.Resolver.UpdateRole` | server/cmd/chat/service_moderation.go:803-810 | one change of a role's permissions with its invalidation, after which every cached value is still what the tables give |
| `PermissionResolver.Resolver.DeleteRole` | server/cmd/chat/service_moderation.go:866-880 | one role deleted, with its assignments, overrides and invalidation; the same |
| `PermissionResolver.Resolver.ReorderRoles` | server/cmd/chat/service_moderation.go:975-990 | one reorder, which resolution does not read, with its invalidation; the same |
| `PermissionResolver.Resolver.SetPermissionOverride` | server/cmd/chat/service_permission_overrides.go:167-219 | one override set, mirrored to a companion, with its invalidation, after which every cached value is still what the tables give |
| `PermissionResolver.Resolver.DeletePermissionOverride` | server/cmd/chat/service_permission_overrides.go:298-342 | one override deleted, mirrored, with its invalidation, after which every cached value is still what the tables give |
| `PermissionResolver.Resolver.SyncChannelPermissions` | server/cmd/chat/service_permission_overrides.go:450-459 | one sync of a channel without companion, with its invalidation of the channel's entries; the same |
| `OverrideMirror.AlwaysMirrored` | server/cmd/chat/service_permission_overrides.go:174-191 | in every run of creations, override changes, syncs and deletions a voice channel and its companion carry the same override table, and pairs stay proper |
| `OverrideMirror.StepMirrorsOne` | server/cmd/chat/service_permission_overrides.go:325-339 | one call keeps the two halves of a voice channel equal for each role and user |
| `OverrideMirror.PairIsBoth` | server/cmd/chat/service_permission_overrides.go:88-97 | since companions are refused as targets, a call reaches both halves or neither |
| `OverrideMirror.CreateLookup` | server/cmd/chat/service.go:976-1037 | a new channel and its companion start with the category's role overrides; a private one has the @everyone deny as well unless the category has an @everyone override, which replaces it; nothing else changes |
| `OverrideMirror.StartsHiddenIff` | server/cmd/chat/service.go:976-1037 | a private channel and its companion start hidden from @everyone if and only if the category has no @everyone override or one that hides |
| `OverrideMirror.PrivateCanStartVisible` | server/cmd/chat/service.go:976-1037 | a private channel in a category whose @everyone override allows viewing starts visible |
| `OverrideMirror.GroupLookup` | server/internal/store/chat_store.go:634-656 | deleting a category settles its overrides on its channels where none stands already |
| `OverrideLaws.SetLaw` | server/cmd/chat/service_permission_overrides.go:59-191 | the override table after a set, row by row: the target's row, its companion's, and nothing else; accepted exactly for a category or a channel that is no companion, with channel-scoped bits |
| `OverrideLaws.DeleteLaw` | server/cmd/chat/service_permission_overrides.go:246-339 | the same for a delete, which needs the row |
| `OverrideLaws.SyncLaw` | server/internal/store/chat_store.go:600-630 | a sync takes exactly the rows of the channel and its companion |
| `OverrideLaws.DeleteRoleLaw` | server/internal/store/role_store.go:157-203 | deleting a role takes exactly its rows |
| `OverrideLaws.DeleteChannelLaw` | server/cmd/chat/service.go:2321-2400 | deleting a channel takes it, its companion and exactly their rows |
| `OverrideLaws.CreateChannelLaw` | server/cmd/chat/service.go:911-966 | the new channel and its companion are in the category asked for, which must exist, and no other channel changes |
| `OverrideLaws.CreateRowsLaw` | server/cmd/chat/service.go:976-1037 | the rows of new channels, one by one |
| `OverrideLaws.DeleteGroupLaw` | server/internal/store/chat_store.go:634-656 | deleting a category leaves its channels outside any category |
| `OverrideLaws.DeleteGroupRowsLaw` | server/internal/store/chat_store.go:634-656 | and exactly its rows on those of them that had none |
| `OverrideLaws.MaySetIs` | server/cmd/chat/service_permission_overrides.go:59-166 | who may set which override, check by check |
| `OverrideLaws.MayDeleteIs` | server/cmd/chat/service_permission_overrides.go:246-323 | who may delete which |
| `OverrideLaws.MaySyncIs` | server/cmd/chat/service_permission_overrides.go:367-448 | who may sync a channel |
| `OverrideLaws.ServeIs` | server/cmd/chat/service_permission_overrides.go:152-191 | an allowed request does exactly its call, any other nothing |
| `OverrideHandlers.OverrideService.Create` | server/cmd/chat/service.go:891-1037 | one creation by a caller who manages channels, in a category that exists, with the copying loop over any listing order |
| `OverrideHandlers.OverrideService.SetPermissionOverride` | server/cmd/chat/service_permission_overrides.go:59-191 | one override set, mirrored; accepted exactly for a well-formed request with channel-scoped bits on a target that is no companion, from a caller who manages roles, stands above the role or member named and holds the bits |
| `OverrideHandlers.OverrideService.DeletePermissionOverride` | server/cmd/chat/service_permission_overrides.go:246-339 | one override deleted, mirrored; accepted exactly for an existing row of a role or user the caller stands above; a user who left may be cleaned up |
| `OverrideHandlers.OverrideService.SyncChannelPermissions` | server/cmd/chat/service_permission_overrides.go:367-456 | one sync: accepted exactly when the caller stands above every role and user with a row on the channel, and then no channel-level override remains on either half |
| `OverrideHandlers.OverridesAboveStay` | server/cmd/chat/service_permission_overrides.go:402-448 | over any run of the three handlers, with role tables that may change between the calls, the override rows of a role or user above every caller stay as they are, on categories, channels and companions |
| `OverrideHandlers.RowsAboveStay` | server/cmd/chat/service_permission_overrides.go:428-456 | one call leaves such rows alone; a sync, which checks only the channel's own rows, does so on the companion because the two are mirrored |
| `OverrideHandlers.WritesOnlyOwnBits` | server/cmd/chat/service_permission_overrides.go:152-191 | whatever row a call writes, mirrored or not, allows and denies only bits its caller may grant and is for a role or user below the caller |
| `DirectMessages.DeclinedStaysSilent` | server/cmd/chat/service.go:1358-1377 | in every run a message broadcast on a DM declined earlier is preceded, in between, by a call of the recipient that found it declined and left it active, reversing the decline or opening the DM |
| `DirectMessages.NeverPendingAgain` | server/cmd/chat/service_requests.go:102-189 | an answered request is never pending again, and an active DM stays active |
| `DirectMessages.LiftedByRecipient` | server/cmd/chat/service_dm.go:76-103 | a decline that has been lifted was lifted by a call of the recipient that found it standing; no act of the initiator does it |
| `DirectMessages.RunMoves` | server/cmd/chat/service_friend.go:205-211 | in every run people and initiator of a DM stay and its status only rises from pending to declined to active |
| `DirectMessages.RunKeeps` | server/cmd/chat/service_dm.go:105-158 | in every run a request stands between two people, one of whom made it, and the pair index names exactly the DMs |
| `DmLaws.SomebodyAnswered` | server/cmd/chat/service_requests.go:19-189 | in every run a request found declined was declined by its recipient, and one found active was accepted by its recipient or by a friendship of the two |
| `DmLaws.AcceptLaw` | server/cmd/chat/service_requests.go:19-58 | an acceptance is granted exactly to the unblocked recipient of a pending request, and makes it active |
| `DmLaws.DeclineLaw` | server/cmd/chat/service_requests.go:102-128 | a decline is granted exactly to the recipient of a pending request, and makes it declined |
| `DmLaws.ReverseLaw` | server/cmd/chat/service_requests.go:150-189 | a reversal is granted exactly to the unblocked recipient of a declined request, and makes it active |
| `DmLaws.AcceptFriendLaw` | server/cmd/chat/service_friend.go:174-214 | a friendship activates exactly the pending DM of the two |
| `DmLaws.SendLaw` | server/cmd/chat/service.go:1116-1142 | who may send, and that exactly a declined DM swallows the message |
| `DmLaws.AnsweredIsHeard` | server/cmd/chat/service_requests.go:53-58 | after an acceptance or a reversal the next admitted message of either is broadcast |
| `DmLaws.DeclinedIsSwallowed` | server/cmd/chat/service.go:1358-1377 | after a decline the initiator's next message is taken and not broadcast |
| `DmLaws.OpenKnownLaw` | server/cmd/chat/service_dm.go:70-103 | an existing DM is returned; a declined one becomes active exactly for its recipient or for oneself |
| `DmLaws.OpenNewLaw` | server/cmd/chat/service_dm.go:105-162 | a first opening is refused, a request or active, exactly as privacy, friendship and shared servers say |
| `DmLaws.HonestRequest` | server/cmd/chat/service_requests.go:19-58 | a request, heard from its initiator alone, accepted, and then heard from the recipient |
| `DmHandlers.DmService.CreateOrGetDmChannel` | server/cmd/chat/service_dm.go:21-162 | one opening: existing, reopened by the recipient only, or created with the status that privacy, friendship and shared servers give |
| `DmHandlers.DmService.AcceptMessageRequest` | server/cmd/chat/service_requests.go:19-58 | one acceptance: the recipient, while pending, unblocked; the row becomes active, as `DmLaws.AcceptLaw` says |
| `DmHandlers.DmService.DeclineMessageRequest` | server/cmd/chat/service_requests.go:102-128 | one decline: the recipient, while pending |
| `DmHandlers.DmService.ReverseDecline` | server/cmd/chat/service_requests.go:150-189 | one reversal: the recipient, while declined, unblocked |
| `DmHandlers.DmService.AcceptFriendRequest` | server/cmd/chat/service_friend.go:174-214 | one acceptance: activates a pending DM of the two, never a declined one |
| `DmHandlers.DmService.SendMessage` | server/cmd/chat/service.go:1116-1142 | one message: who may send, and broadcast exactly when not declined |
| `DmHandlers.DmService.GetDmChannelByPairKey` | server/internal/store/chat_store.go:1284-1301 | searching the rows for the pair key finds the one DM of the two people, in either order, or none |
| `DmHandlers.PairKeysDiffer` | server/internal/store/chat_store.go:1169-1174 | two pairs have the same key if and only if they are the same two people |
| `PushFanout.SplitIntoBatches` | server/cmd/notification/service.go:474-496 | the batches concatenate to the target list; all hold 300 users but the last, which is not empty |
| `PushFanout.ProcessServerNotifications` | server/cmd/notification/service.go:502-660 | one call pushes to a device exactly when its user is listed, the preference permits, the device has a push subscription and is not connected, and the user's throttle key was free; and leaves exactly the targets' keys held |
| `PushFanout.ExpectedReaches` | server/cmd/notification/service.go:517-660 | the pushes expected of a list of users are exactly those |
| `PushFanout.ReachesIs` | server/cmd/notification/service.go:517-660 | who is reached, from preference, mention, push devices, connections and the text of the throttle key |
| `PushFanout.KeysLeft` | server/cmd/notification/service.go:600-640 | a fan-out leaves exactly the keys of the users who had a device to reach |
| `PushFanout.SecondIsSilent` | server/cmd/notification/service.go:912-920 | while the keys are held the same fan-out pushes nothing |
| `PushFanout.AnySchedule` | server/cmd/notification/service.go:474-496 | every complete interleaving of the batches' Redis commands and pushes sends the same pushes as one call over all targets |
| `PushFanout.CanComplete` | server/cmd/notification/service.go:474-496 | whatever has been run so far, some continuation completes the fan-out: no interleaving gets stuck |
| `PushFanout.BatchingIsTransparent` | server/cmd/notification/service.go:483-493 | for distinct users the batched and the unbatched fan-out dispatch the same pushes |
| `PushFanout.AtMostOnce` | server/cmd/notification/service.go:640-660 | over every complete interleaving of the batches no user and device is pushed to twice, as a mention or not, and the pushes are exactly those due |
| `PushFanout.KeysDiffer` | server/cmd/notification/service.go:912-920 | throttle keys of different users differ, whatever characters their ids hold |
| `PushFanout.Classify` | server/cmd/notification/service.go:517-600 | a user is notified exactly when the preference permits it and some push device is offline, as a mention exactly when mentioned or everyone was, on exactly the offline devices |
| `RateLimit.Limiter.Check` | server/cmd/chat/service.go:1528-1557 | one check runs the script and admits exactly counts up to the limit; without Redis it admits and counts nothing |
| `RateLimit.OneLifetime` | server/cmd/chat/service.go:1551-1557 | from a request that finds the key dead, exactly the first `max` requests of the window pass |
| `RateLimit.FewerThanTwice` | server/cmd/chat/service.go:1528-1557 | over every arrival sequence at most 2·max − 1 requests pass in any half-open interval of one window |
| `RateLimit.BoundIsReached` | server/cmd/chat/service.go:1551-1557 | that bound is met for every limit and window, by an arrival sequence in order |
| `RateLimit.AlwaysExpires` | server/cmd/chat/service.go:1548-1557 | no key is ever left without an expiry |
| `RateLimit.NothingPasses` | server/cmd/chat/service.go:1538-1540 | a limit below one admits nothing |
| `Migrations.ReadUpMigrations` | server/cmd/migrate/main.go:316-349 | fails exactly when a name does not parse or two files share a version; otherwise the list is the directory's files, strictly increasing |
| `Migrations.CheckDuplicateVersions` | server/cmd/migrate/main.go:407-414 | on a sorted list finds a repeated version exactly when there is one |
| `Migrations.IsUpIff` | server/cmd/migrate/main.go:316-330 | exactly files whose name ends in the suffix are read |
| `Migrations.SortIsUnique` | server/cmd/migrate/main.go:342-348 | without duplicates neither the directory order nor the unstable sort matters |
| `Migrations.NameReadsBack` | server/cmd/migrate/main.go:385-403 | a file name written from version and title reads back as they were |
| `Migrations.Database.Migrate` | server/cmd/migrate/main.go:107-156 | one run: skips what was applied at its start, commits script and version together, stops at the first failure |
| `Migrations.AlwaysAPrefix` | server/cmd/migrate/main.go:124-153 | any sequence of runs, each failing anywhere, even with a commit whose answer is lost, leaves a prefix of the list applied, each script once and in order |
| `Migrations.ResumeIsStraight` | server/cmd/migrate/main.go:85-156 | after any such history a clean run ends where one uninterrupted run would |
| `CqlSplitter.SplitCql` | server/cmd/migrate/main.go:439-456 | computes the cleaned, non-empty segments in order |
| `CqlSplitter.StatementsAre` | server/cmd/migrate/main.go:441-454 | one statement per segment with a kept line: non-empty, trimmed, free of semicolons, its lines exactly the segment's kept lines up to outer trimming |
| `CqlSplitter.SpacesAre` | server/cmd/migrate/main.go:443-447 | white space is the 25 code points of Unicode |
| `CqlSplitter.StableOnOwnOutput` | server/cmd/migrate/main.go:439-456 | joining the statements with semicolons and splitting again gives the same statements |
| `CqlSplitter.CommentsAreStripped` | server/cmd/migrate/main.go:437-456 | taking the comment lines out first gives the same statements when no comment line holds a semicolon |
| `CqlSplitter.CommentCanRun` | server/cmd/migrate/main.go:439-456 | what follows the semicolon of a comment line is a statement |
| `CqlSplitter.CommentCanDiffer` | server/cmd/migrate/main.go:437-438 | `--x;y` is split into the statement `y`, while without its comment line the script is empty |

## Left out

- The per-user NATS callback of a socket, which sends outside the gateway's lock, the WebSocket pumps, and slow-consumer closing.
- Concurrency inside one handler: handlers are atomic steps, so races between a handler's own store calls are not modelled; the two-phase cache sweep, the stale gateway refresh and the notification batches are, because the source runs them concurrently by design.
- The one-session-per-user index, the cooldown and the rate limits of device recovery only refuse calls; they are the `admitted` flag of a call, and uniqueness of the index is not stated.
- `epoch` and `sendNo` in `DeviceRecovery` are labels that name incarnations of a key and sends; the server does not store them.
- A gateway or interceptor without a blocklist or cache configured: the gateway is modelled with both, the interceptors with either switched by the configuration.
- `CompleteOnboarding`, which assigns self-assignable roles, and ownership transfer are not calls of `Roles`.
- `UpdateChannel` privacy and category moves, `CompleteOnboarding`, kicks and bans, and the companion side of a sync are not calls of `PermissionCache`: the server does not invalidate its cache for them.
- The `permissions_synced` flag of a channel, which an override change clears and a sync sets, decides nothing in the handlers modelled.
- `UpdateChannel` is not a call of `OverrideMirror`: a bare privacy toggle is not mirrored.
- PermissionResolver.Resolver.ResolvePermissions: store errors other than a missing server, role or member are not modelled, because they end the call without touching the cache.
- PushFanout.ProcessServerNotifications: store and Redis errors, which end a batch early, and the wording of a push are not modelled; throttle keys do not expire during one fan-out.
- Migrations.Database.Migrate: connection, lock and tracking-table failures happen before the loop and change nothing; the ScyllaDB runner, which replays idempotent statements, is represented by its splitter only.
- CqlSplitter.CommentsAreStripped: one way only; with a semicolon in a comment the two lists can still agree, for example when nothing follows it on the line and no statement is open, and the exact condition on such lines is not stated.
- CqlSplitter.SplitCql: text is a sequence of code points, not of UTF-8 bytes.
- Role names, colours and the self-assignable flag; timeouts' 28-day bound; audit events and published notifications other than which sockets or devices are reached.
- Cryptography, JWT parsing, Argon2, protobuf conversion, NATS, LiveKit, S3, SMTP and push transports.
- Presence, voice and media services, emoji, soundboard, webhook, pin and reaction handlers, and `EditMessage` on declined DMs: mostly single decisions over external services.
