# Verified model of the Decisya core

A Dafny 4.11 model of the parts of Decisya whose correctness spans several operations, with proofs of what
they promise. Each file is one component; `dafny verify dfyconfig.toml` checks them all.

## What is modelled

**Sessions** (`SessionModel`, `NoResurrection`, `TokenOrigin`, `Revocation`, `LoneRuns`, `RefreshChain`, `LockSafety`,
`SentOnce`, `SidIndex`, `SessionRuns`).
Any number of backend instances share one Redis and one identity provider. A request refreshes its session's tokens
under a per-session lock that expires after ten seconds (the refresh grant of section 6 of RFC 6749, with the strict
rotation of section 4.14.2 of RFC 9700); logout, back-channel logout (section 2.7 of OpenID Connect Back-Channel
Logout 1.0) and the login callback's guard delete tickets at any time. This is a transition system: a process stands
between two awaits, an event executes one awaited call, and a run is any sequence of events. Clock ticks, lost
answers, failed and abandoned calls that still land, expiring locks and revoked sessions are events like any other.
The safety results hold of every run; the two that need an assumption about the run say so, and concrete runs show the
assumption is needed. `LoneRuns` says in full what each request and logout does when nothing else happens.

`SessionServices` and `AccessTokens` are the classes themselves: the ticket store, the lock, the token client, the
provider's polling loop, the middleware and the logout endpoints. At each await a schedule lets the other processes
act and decides how the call comes out; each method is proved to be a run of the transition system for every schedule.
`CookieHeader` is the callback guard's rewriting of the Cookie header.

**Log masking** (`TypeGraph`, `MaskedText`, `Masking`, `NonInterference`, `MaskedOutput`, `MaskingProcessor`). The analysis of a type's
graph of public members, which may be cyclic and even infinite; the deny-list and the rendering of URIs; the
depth-limited renderer with one budget per record; the proof that secret places do not influence what a sink sees, and
the exact account of what it does see.

**Allocation of money** (`Apportionment`, `Money`, `MoneyAllocation`). The shares are defined in closed form, by the
rank of each index among the remainders, and proved to be the only fair apportionment; the algorithm over arrays of
fixed-width integers is proved against that.
Exponents are 0, 2, 3 and 4 (ISO 4217).

**Tenants** (`TenantText`, `TenantKey`, `TenantStore`, `TenantDbContext`, `RequestCaller`, `MessageHop`). The text form of
an identifier (section 4 of RFC 9562), the keys built from it, a database of rows shared by any number of tenants'
contexts, and the two facts a message carries from scope to scope.

**Stack tooling** (`PathMatcher`, `EdgeTable`, `EdgeGuard`, `AdminPatterns`, `EdgeRules`, `CertificateRotation`, `SecretFolder`). First-match
evaluation of the edge's route tables for every request, the guard that compares a configuration with the table and applies
rules of its own, and the certificate commands as atomic writes that may be cut off after any one.

`Options` and `Texts` hold what several components share.

## Where the code differs from what is said about it

- A type whose public properties cannot be listed is analysed as having none, so it passes the type walk unless a
  public field stops it. The comment on the analysis says what cannot be determined is never handed on. `TypeGraph.UnlistedPropertiesPass`
  shows it, and `TypeGraph.PassingMeansCleanIff` says exactly when passing means that the properties are clean.
- A certificate rotation that stops after its third write leaves the new certificate beside the old password, and
  `check` accepts the files. The comment says an interruption is named; that is so after the first and second write,
  exactly (`CertificateRotation.CheckNamesFirstAndSecondWrite`).
- Minor units equal to the least 64-bit integer fit the documented range but are refused, because the sign is taken
  off first (`Money.LeastLongIsRefused`; `Money.TooLargeIff` is the exact condition).
- The rule that no route to the identity provider on 8443 admits an admin path looks at twelve probes. By itself it
  lets other admin paths through (`EdgeRules.RulesAloneAdmitAnAdminPath`, a configuration that obeys every rule).
  Exactly when it does not is a matter of the patterns alone (`AdminPatterns.AdmitsNoAdminPathIff`, for every
  pattern, and `EdgeRules.RulesKeepAdminPathsOutIff`, for every configuration that obeys the rules). That no admin
  path gets through an accepted configuration is due to the comparison with the table
  (`EdgeTable.AdminPathsStayOnTheirListener`).
- Two conditions of the sid index are about runs, not code. A sign-in for a sid between the member read and the delete
  of a back-channel logout escapes it (`SidIndex.LateSignInEscapes`); what survives a delete is stated exactly
  (`SidIndex.SurvivorsSignedInLate`). A write-back applied later than its expiry was computed makes the ticket expire
  later by that delay; its ticket leaves the index exactly when that passes the sid set's own expiry
  (`SidIndex.DelayedWriteKeepsIndexIff`), which `SidIndex.DelayedWriteEscapes` shows a run of.

## Model

| member | source | states |
|---|---|---|
| `NoResurrection.NoResurrection` | src/Decisya.Bff/Session/RedisTicketStore.cs:123-137 | In every run, from any state, of any number of refreshes, logouts, back-channel logouts, callback guards, sign-ins, stalls, expiring locks and lost answers: a session key that was handed out and holds no ticket never holds one again. |
| `NoResurrection.NoTokenAfterDeletion` | src/Decisya.Bff/Session/AccessTokenProvider.cs:133-144 | A request that has no token when its session is gone gets none in any continuation, wherever it was: authenticating, waiting, refreshing or writing back. |
| `NoResurrection.LateRequestOnlyReads` | src/Decisya.Bff/Session/AccessTokenProvider.cs:33-40 | A request begun after the deletion does one read and ends in 401: it never takes the lock, calls the provider or writes. |
| `NoResurrection.LogoutIsFinal` | src/Decisya.Bff/Endpoints/BffEndpoints.cs:96-119 | Once the delete of a logout, sign-out, callback guard or back-channel logout has reached Redis, acknowledged or not, the key is dead for the rest of every run and no request still without an answer gets a token. |
| `TokenOrigin.ReadAnswersIff` | src/Decisya.Bff/Session/AccessTokenProvider.cs:42-45 | At each of its three reads a request that finds a live ticket answers with a token if and only if the ticket has one with more than 30 s left, and then with that one; otherwise it goes on to the lock, and under the lock to the send or, without a refresh token, to the end of the session. |
| `TokenOrigin.RaceAnswersIff` | src/Decisya.Bff/Session/AccessTokenProvider.cs:159-174 | After a refusal a request answers with a token if and only if its re-read finds another refresh token than the one it sent and an access token with more than 30 s left; otherwise the session has ended. |
| `TokenOrigin.TokensAreReadOrRefreshed` | src/Decisya.Bff/Session/AccessTokenProvider.cs:190-203 | In every run: whatever token a request answers with was read in the run from a standing ticket with more than 30 s left, or was granted by the provider to this request and then written back to the session, with its new expiry, while that still stood. |
| `TokenOrigin.GivesUpAfterTenSecondsIff` | src/Decisya.Bff/Session/AccessTokenProvider.cs:51-61 | In every run: a request that found its token stale gives up at a try for the lock if and only if ten seconds have passed since that read; before that a free lock is taken and a held one makes it poll. |
| `TokenOrigin.LostGrantFails` | src/Decisya.Bff/Session/AccessTokenProvider.cs:149-151 | A grant whose answer is lost, spent or not, ends in an error answer in every continuation: the ticket and its sid set stay as they are and the request never signs out. |
| `TokenOrigin.FailedCallEndsSo` | src/Decisya.Bff/Session/AccessTokenProvider.cs:63-93 | How each awaited call that does not come through ends a request: a time-out at the lock is an outage and no sign-out, a failed read is a missing session, a failed write-back, release or delete a server error. |
| `Revocation.RevokedForGood` | src/Decisya.Bff/Session/KeycloakTokenClient.cs:115-190 | Over every run: a revoked chain accepts no refresh token again. |
| `Revocation.RefusedAfterRevocation` | src/Decisya.Bff/Session/AccessTokenProvider.cs:129-147 | So a refresh still in flight is refused, and nothing is written back for it. |
| `Revocation.LogoutEndsTheChain` | src/Decisya.Bff/Endpoints/BffEndpoints.cs:98-105 | A logout whose read finds a live ticket with a refresh token, and whose end-session call lands, leaves the chain accepting nothing in every continuation, whatever others do between its steps. |
| `Revocation.LogoutRevokes` | src/Decisya.Bff/Endpoints/BffEndpoints.cs:98-105 | Over every run: a logout that has come past the provider has revoked the chain, or one of its own steps excuses it: the acquire threw, the read found no refresh token, or the call never landed. |
| `Revocation.NoTokenNoRevocation` | src/Decisya.Bff/Endpoints/BffEndpoints.cs:100-105 | A logout that reads no refresh token revokes nothing, at no later step of any run. |
| `Revocation.LogoutTakesTheLockIff` | src/Decisya.Bff/Session/RedisRefreshLock.cs:45-82 | Over every run: a logout polls a held lock until ten seconds from its start, then goes on without it; a free lock is taken, a cancelled wait goes on without it, a failed acquire ends the logout. |
| `LoneRuns.LoneRead` | src/Decisya.Bff/Session/AccessTokenProvider.cs:33-45 | Undisturbed, a request without a ticket ends in 401 and one with more than 30 s left on its token answers with it, after one read and without touching anything. |
| `LoneRuns.LoneRefresh` | src/Decisya.Bff/Session/AccessTokenProvider.cs:109-144 | Undisturbed, a stale session whose refresh token is the newest is refreshed: the answer is the new token, the ticket holds it with its new expiry, the sid set is unchanged and the lock is free. |
| `LoneRuns.LoneRefusal` | src/Decisya.Bff/Session/AccessTokenProvider.cs:146-174 | Undisturbed, a stale session whose refresh token the provider refuses is signed out: ticket and set membership are gone and the lock is free. |
| `LoneRuns.LoneRequestWithoutRefreshToken` | src/Decisya.Bff/Session/AccessTokenProvider.cs:123-127 | The same for a stale session that holds no refresh token; the provider is not called. |
| `LoneRuns.LoneLogout` | src/Decisya.Bff/Endpoints/BffEndpoints.cs:90-119 | Undisturbed, a logout deletes the ticket and its set membership, frees the lock, and ends the provider's chain exactly when a refresh token is stored. |
| `LoneRuns.LoneBackchannelLogout` | src/Decisya.Bff/Session/RedisTicketStore.cs:211-237 | Undisturbed, a back-channel logout deletes exactly the tickets its sid's live set lists, and the set. |
| `LoneRuns.LoneRemoval` | src/Decisya.Bff/Session/SessionFixationGuard.cs:49-54 | Undisturbed, the callback guard deletes the old session and its set membership and nothing else. |
| `LoneRuns.SignInStores` | src/Decisya.Bff/Session/RedisTicketStore.cs:38-72 | A sign-in stores its ticket for ten hours, with a refresh token if it has one, adds it to the live members of its sid's set, which then lasts as long, and leaves every other ticket and set alone. |
| `RefreshChain.ChainHolds` | src/Decisya.Bff/Session/AccessTokenProvider.cs:109-153 | The invariant behind the chain results is kept by every event, also with two holders at once after a lock expired. |
| `RefreshChain.AtMostOneUnwritten` | src/Decisya.Bff/Session/AccessTokenProvider.cs:129-144 | From an empty Redis, in every run: the stored refresh token is the provider's newest or exactly one behind it, and the one missing position is in the hands of at most one process. |
| `RefreshChain.StoredNeverGoesBack` | src/Decisya.Bff/Session/AccessTokenProvider.cs:133-144 | Between any two points of any run the stored position does not decrease, so no write-back, however late, overwrites a newer one. |
| `RefreshChain.WriteBackMovesOneOn` | src/Decisya.Bff/Session/RedisTicketStore.cs:123-137 | A write-back that reaches a live session moves the stored token exactly one position on, to the provider's newest, whoever holds the lock. |
| `RefreshChain.AcceptedIffNewest` | src/Decisya.Bff/Session/AccessTokenProvider.cs:155-174 | The provider accepts a token a request sends for a stored session if and only if the chain is active and the token is both the stored and the newest one; so a refusal on an active chain means another refresh has rotated it, which is what the re-read after `invalid_grant` distinguishes. |
| `LockSafety.LockOkHolds` | src/Decisya.Bff/Session/RedisRefreshLock.cs:22-35 | In every run a process between taking and releasing a lock owns it in Redis or has outlived its time to live. |
| `LockSafety.OneHolder` | src/Decisya.Bff/Session/RedisRefreshLock.cs:20-35 | Two processes hold the lock of one session at once only if one of them has outlived the time to live: two refreshes, or a logout that got the lock and a refresh. |
| `LockSafety.OwnershipLasts` | src/Decisya.Bff/Session/RedisRefreshLock.cs:86-92 | Whatever the other processes do, late releases included, an owned lock stays owned until its own expiry or its owner's next step. |
| `SentOnce.SucceededTokenNeverResent` | src/Decisya.Bff/Session/AccessTokenProvider.cs:129-144 | In runs where no holder outlives the lock and no write-back fails, a refresh token whose refresh succeeded is never sent again. |
| `SentOnce.NextRefreshSendsSpentIff` | src/Decisya.Bff/Session/AccessTokenProvider.cs:111-129 | In every run: the request that holds the lock and finds the ticket stale sends the stored token, and that token is spent if and only if the stored position is one behind the provider's newest; a token whose refresh succeeded is always spent. |
| `SentOnce.OverrunResends` | src/Decisya.Bff/Session/RedisRefreshLock.cs:20-20 | The first condition is needed: a run from an empty Redis in which a stalled holder's spent token is sent by the next holder. |
| `SentOnce.FailedWriteResends` | src/Decisya.Bff/Session/AccessTokenProvider.cs:133-135 | The second condition is needed: a run in which a write-back fails in time and the next holder sends the spent token. |
| `SidIndex.IndexHolds` | src/Decisya.Bff/Session/RedisTicketStore.cs:38-72 | In runs without a sign-in between a member read and its delete, where each expiry is computed and applied in one step, every live ticket with a sid stays in its sid's set, the set outlives it, and every pending back-channel delete knows every earlier session. |
| `SidIndex.LiveTicketsAreIndexed` | src/Decisya.Bff/Session/RedisTicketStore.cs:51-56 | The same from an empty Redis, said of Redis alone: a member read at any time lists every live ticket of the sid. |
| `SidIndex.SurvivorsSignedInLate` | src/Decisya.Bff/Session/RedisTicketStore.cs:211-237 | A session of the sid survives a back-channel delete if and only if it signed in after the members were read. |
| `SidIndex.DeleteKeepsIndexIff` | src/Decisya.Bff/Session/RedisTicketStore.cs:224-236 | Such a delete leaves the index intact if and only if no session survives it. |
| `SidIndex.BackchannelLogoutIsFinal` | src/Decisya.Bff/Endpoints/BffEndpoints.cs:231-237 | The sessions a back-channel logout ended stay ended in every continuation. |
| `SidIndex.DeleteTakesItsKeyOutOfTheIndex` | src/Decisya.Bff/Session/RedisTicketStore.cs:184-203 | In every run: a landed delete that knows the session's sid takes its key out of every set for good; one whose read failed leaves it listed exactly where it was; the ticket is gone either way. |
| `SidIndex.ReadFindsTheSid` | src/Decisya.Bff/Session/RedisTicketStore.cs:186-192 | A read that finds a live ticket finds the sid of its sign-in, in every run. |
| `SidIndex.SignInDuringDeleteEscapes` | src/Decisya.Bff/Session/RedisTicketStore.cs:217-235 | From any state about to delete: a sign-in for the sid before the delete leaves a live ticket that is in no set, so no later back-channel logout finds it. |
| `SidIndex.LateSignInEscapes` | src/Decisya.Bff/Session/RedisTicketStore.cs:217-235 | A run from an empty Redis that reaches such a ticket. |
| `SidIndex.DelayedWriteKeepsIndexIff` | src/Decisya.Bff/Session/RedisTicketStore.cs:268-277 | A write-back whose clock was read earlier than Redis applies the expiry moves the ticket's expiry by exactly that delay and leaves the sets alone; it keeps the index if and only if the later expiry is still within the sid set's own. |
| `SidIndex.DelayedWriteEscapes` | src/Decisya.Bff/Session/RedisTicketStore.cs:123-137 | A run from an empty Redis in which a delayed write-back leaves its ticket live after the sid set has expired, so a member read finds nothing. |
| `SessionServices.Cluster.Await` | src/Decisya.Bff/Session/AccessTokenProvider.cs:55-107 | Between two awaits any events of other processes run; the code's own point is unchanged and dead sessions stay dead. |
| `SessionServices.Cluster.Commit` | src/Decisya.Bff/Session/AccessTokenProvider.cs:55-107 | What the code did since its await is one step of the transition system, so the whole history stays one run. |
| `SessionServices.RedisTicketStore.ComputeExpiry` | src/Decisya.Bff/Session/RedisTicketStore.cs:268-277 | The time left to the absolute expiration, or one second when none is left; never zero. |
| `SessionServices.RedisTicketStore.StoreAsync` | src/Decisya.Bff/Session/RedisTicketStore.cs:38-72 | The ticket and its sid entry, both with the ticket's expiry, in one transaction. |
| `SessionServices.RedisTicketStore.RetrieveAsync` | src/Decisya.Bff/Session/RedisTicketStore.cs:139-182 | The stored ticket while it has not expired; none when it is absent and none on a transient failure. |
| `SessionServices.RedisTicketStore.TryUpdateTokensAsync` | src/Decisya.Bff/Session/RedisTicketStore.cs:123-137 | The write happens exactly when the key still exists, and the answer says so. |
| `SessionServices.RedisTicketStore.DeleteAsync` | src/Decisya.Bff/Session/RedisTicketStore.cs:194-202 | The ticket and its membership in the sid set the earlier read found. |
| `SessionServices.RedisTicketStore.SetMembersAsync` | src/Decisya.Bff/Session/RedisTicketStore.cs:215-222 | Exactly the live members of the sid's set. |
| `SessionServices.RedisTicketStore.DeleteMembersAsync` | src/Decisya.Bff/Session/RedisTicketStore.cs:224-236 | Every member read loses its ticket and the set goes; nothing happens for an empty read. |
| `SessionServices.RedisRefreshLock.TryAcquireAsync` | src/Decisya.Bff/Session/RedisRefreshLock.cs:22-35 | The lock is taken exactly when it is free or expired, for ten seconds. |
| `SessionServices.RedisRefreshLock.DisposeAsync` | src/Decisya.Bff/Session/RedisRefreshLock.cs:86-92 | The release removes the lock only while its stored value is the releaser's own. |
| `SessionServices.RedisRefreshLock.AcquireOrWaitAsync` | src/Decisya.Bff/Session/RedisRefreshLock.cs:45-82 | For every schedule the bounded wait ends with the lock owned, without it, or with a thrown acquire, and the wait is part of one run. |
| `SessionServices.KeycloakTokenClient.RefreshAsync` | src/Decisya.Bff/Session/KeycloakTokenClient.cs:47-109 | One grant is posted; it succeeds exactly for the newest token of an active chain, and a lost answer or a cancelled send is an error although the token may be spent. |
| `AccessTokens.AccessTokenProvider.GetAsync` | src/Decisya.Bff/Session/AccessTokenProvider.cs:29-107 | For every schedule of other processes and of call outcomes the polling loop ends, its answer is the one a run of the transition system ends with, and a token was either read in that run with more than 30 s left or granted and written back in it. |
| `AccessTokens.AccessTokenProvider.RefreshUnderLockAsync` | src/Decisya.Bff/Session/AccessTokenProvider.cs:109-153 | Re-read, send, write back: each branch is the transition system's own, and the answer is ready to be released with. |
| `AccessTokens.AccessTokenProvider.HandleInvalidGrantAsync` | src/Decisya.Bff/Session/AccessTokenProvider.cs:159-174 | A token only from a fresh ticket whose refresh token is not the one just sent; otherwise the session has ended. |
| `AccessTokens.AccessTokenProvider.ApplyRefreshedTokens` | src/Decisya.Bff/Session/AccessTokenProvider.cs:176-188 | The three token values change; the sid and the absolute expiration do not. |
| `AccessTokens.AccessTokenMiddleware.InvokeAsync` | src/Decisya.Bff/Proxy/AccessTokenMiddleware.cs:21-49 | Forwarding, 401 with a sign-out that deletes the ticket, or 503: each exactly for the answer a run gives. |
| `AccessTokens.Serve` | src/Decisya.Bff/Proxy/AccessTokenMiddleware.cs:21-49 | One request from any state under any schedule: the response is what the resulting run says, a session already gone never yields a token, and a forwarded token was read from a standing ticket with more than 30 s left or is the one this very run was granted and wrote back. |
| `AccessTokens.LogoutEndpoint.LogoutAsync` | src/Decisya.Bff/Endpoints/BffEndpoints.cs:90-119 | With the lock or without it, a logout that answers leaves the session deleted for good and the provider's chain revoked, unless the acquire threw, its read found no refresh token or the end-session call was lost; a lock it took is let go also when the delete throws. |
| `AccessTokens.LogoutEndpoint.EndSessionAsync` | src/Decisya.Bff/Endpoints/BffEndpoints.cs:98-106 | The provider's chain is revoked, unless the read found no refresh token or the call was lost; whatever happens, the local logout goes on. |
| `AccessTokens.LogoutEndpoint.BackchannelLogoutAsync` | src/Decisya.Bff/Session/RedisTicketStore.cs:211-237 | An answer that a session was removed means the sid set is gone and every session it listed at the time of the read, a point of the same run, has lost its ticket. |
| `CookieHeader.RewritingRemovesExactlyTheNamed` | src/Decisya.Bff/Session/SessionFixationGuard.cs:84-123 | Read back, the rewritten Cookie header holds exactly the pairs that do not bear the session cookie's name, in their order. |
| `CookieHeader.RewritingIsIdempotent` | src/Decisya.Bff/Session/SessionFixationGuard.cs:84-123 | Rewriting the rewritten header changes nothing. |
| `CookieHeader.RemoveCookieFromRequestHeader` | src/Decisya.Bff/Session/SessionFixationGuard.cs:91-123 | The nested loops over header values and pairs compute that rewriting; with no pair left the header is removed. |
| `TypeGraph.NoMeansClosureIsClean` | src/Decisya.ServiceDefaults/Logging/SensitiveTypeAnalyzer.cs:306-391 | When the walk answers no, no type on any chain of public members, through any cycles, has a marked, denied, string, Uri, object, interface or abstract member, or a collection whose element types lead, through nullables and either side of pairs, to anything sensitive or not scalar. |
| `TypeGraph.HasScalarElementsIff` | src/Decisya.ServiceDefaults/Logging/SensitiveTypeAnalyzer.cs:90-188 | A type counts as a collection of scalars if and only if it has element types, none of the types they lead to through nullables and both sides of pairs is sensitive, and every such way ends in scalars. |
| `TypeGraph.NeedsRenderingIffEvidence` | src/Decisya.ServiceDefaults/Logging/SensitiveTypeAnalyzer.cs:192-193 | The walk answers yes if and only if some chain leads to such a member, to a failed inspection, or beyond the depth limit. |
| `TypeGraph.ListedMembersAreAll` | src/Decisya.ServiceDefaults/Logging/SensitiveTypeAnalyzer.cs:214-228 | Where the properties can be listed, the clean members are all public properties and fields. |
| `TypeGraph.PassingMeansCleanIff` | src/Decisya.ServiceDefaults/Logging/SensitiveTypeAnalyzer.cs:214-228 | For a type that passes the walk: passing means its properties are clean, whatever they are, if and only if they can be listed. |
| `TypeGraph.UnlistedPropertiesPass` | src/Decisya.ServiceDefaults/Logging/SensitiveTypeAnalyzer.cs:223-227 | A type whose properties cannot be listed and that has no public field passes, whatever its properties are. |
| `TypeGraph.Analyze` | src/Decisya.ServiceDefaults/Logging/SensitiveTypeAnalyzer.cs:306-357 | The recursive walk over one shared mutable set computes the path-based answer and leaves the set as it found it. |
| `TypeGraph.AnalyzeMembers` | src/Decisya.ServiceDefaults/Logging/SensitiveTypeAnalyzer.cs:322-346 | Both member loops stop at the first deciding member and miss none. |
| `TypeGraph.AnalyzeMember` | src/Decisya.ServiceDefaults/Logging/SensitiveTypeAnalyzer.cs:359-391 | The order of the member checks gives the member's own answer. |
| `NonInterference.MaskingIsNonInterfering` | src/Decisya.ServiceDefaults/Logging/SensitiveDataMaskingProcessor.cs:89-151 | Two records that differ only in secret places, and in texts only as far as the shape matcher makes the same of them, give the same attributes, template and flag and leave the same budget; a value handed on as it is shows the same in all its elements, entries and public members. |
| `NonInterference.AnySame` | src/Decisya.ServiceDefaults/Logging/SensitiveDataMaskingProcessor.cs:338-395 | The same for one value at any depth and budget. |
| `NonInterference.ClearedShowsSame` | src/Decisya.ServiceDefaults/Logging/SensitiveDataMaskingProcessor.cs:384-387 | An object the walk cleared leads to the same along every path of members in both heaps, cycles included. |
| `MaskedOutput.TextShowsAsMatched` | src/Decisya.ServiceDefaults/Logging/SensitiveDataMaskingProcessor.cs:345-349 | At any depth a text shows as the shape matcher made it, with the matcher's flag. |
| `MaskedOutput.TextsShowAsMatched` | src/Decisya.ServiceDefaults/Logging/SensitiveDataMaskingProcessor.cs:405-436 | A collection of texts shows each as matched when any of them changes, is handed on when none does, and fails when the matcher runs out of time. |
| `MaskedOutput.ValueFate` | src/Decisya.ServiceDefaults/Logging/SensitiveDataMaskingProcessor.cs:351-395 | Any other value is handed on exactly when nothing in it is to be hidden, rendered exactly when it is an object of a type whose getters may be called, at depth 3 or above, within the budget, and otherwise shows as the mask alone. |
| `MaskedOutput.MembersShow` | src/Decisya.ServiceDefaults/Logging/SensitiveDataMaskingProcessor.cs:438-473 | A rendered object shows its properties in order, each as the mask or as what its value comes to; it is cut short only at 32 members or an empty budget, and says so exactly then. |
| `MaskedOutput.AnyComesThrough` | src/Decisya.ServiceDefaults/Logging/SensitiveDataMaskingProcessor.cs:109-121 | Only a time-out of the shape matcher makes a value fail: without one every value of every heap comes through, at any depth and budget. |
| `MaskedOutput.TextMemberShowsAsMatched` | src/Decisya.ServiceDefaults/Logging/SensitiveDataMaskingProcessor.cs:475-494 | A text member shows as the shape matcher made it, or as the mask when it is marked, denied or of a sensitive type. |
| `MaskedOutput.RecordShows` | src/Decisya.ServiceDefaults/Logging/SensitiveDataMaskingProcessor.cs:89-151 | A record shows one attribute for the first pair of each key, in order; its template, its flags and the added error attribute are exactly as its pairs say. |
| `MaskedOutput.PairShows` | src/Decisya.ServiceDefaults/Logging/SensitiveDataMaskingProcessor.cs:320-336 | Under a denied key everything but null and the empty text shows as the mask; under any other key a text shows as matched. |
| `Masking.RecordIsBounded` | src/Decisya.ServiceDefaults/Logging/SensitiveDataMaskingProcessor.cs:546-551 | One record, over any heap with any cycles: at most 256 rendered nodes in all, 32 members an object and 4 objects inside each other. |
| `Masking.ProcessAnyIsBounded` | src/Decisya.ServiceDefaults/Logging/SensitiveDataMaskingProcessor.cs:384-395 | Every value pays for what it renders out of the budget and stays within the remaining depth. |
| `MaskedText.DeniedInside` | src/Decisya.ServiceDefaults/Logging/SensitiveDataMaskingProcessor.cs:208-237 | A denied key stays denied inside any longer key. |
| `MaskedText.SeparatorsDoNotMatter` | src/Decisya.ServiceDefaults/Logging/SensitiveDataMaskingProcessor.cs:217-222 | Inserting `_`, `-` or `.` anywhere never changes whether a key is denied. |
| `MaskedText.DeniedIff` | src/Decisya.ServiceDefaults/Logging/SensitiveDataMaskingProcessor.cs:60-83 | A key is denied if and only if one of the seventeen words stands somewhere in its compared text. |
| `MaskedText.CaseDoesNotMatter` | src/Decisya.ServiceDefaults/Logging/SensitiveDataMaskingProcessor.cs:224-224 | Letter case never changes whether a key is denied. |
| `MaskedText.IsDenied` | src/Decisya.ServiceDefaults/Logging/SensitiveDataMaskingProcessor.cs:208-237 | One pass into a buffer and one over the fragments decide the deny-list. |
| `MaskedText.RenderUriHidesSecretParts` | src/Decisya.ServiceDefaults/Logging/SensitiveDataMaskingProcessor.cs:287-318 | Two URIs that differ only in userinfo, query text or fragment are rendered alike. |
| `MaskedText.AbsoluteRendering` | src/Decisya.ServiceDefaults/Logging/SensitiveDataMaskingProcessor.cs:302-317 | An absolute URI shows scheme, host, a port that is not the default, path, and only that it has a query. |
| `MaskingProcessor.SensitiveDataMaskingProcessor.Process` | src/Decisya.ServiceDefaults/Logging/SensitiveDataMaskingProcessor.cs:89-151 | The loop over a record's pairs, with its seen-set, flags and budget, computes the masked record. |
| `MaskingProcessor.SensitiveDataMaskingProcessor.ProcessAny` | src/Decisya.ServiceDefaults/Logging/SensitiveDataMaskingProcessor.cs:338-395 | The result and the budget left are those of the masking function, for every value and depth. |
| `MaskingProcessor.SensitiveDataMaskingProcessor.RenderObject` | src/Decisya.ServiceDefaults/Logging/SensitiveDataMaskingProcessor.cs:438-473 | The member loop writes the members and the truncation mark the masking function says, and spends the same budget. |
| `MaskingProcessor.SensitiveDataMaskingProcessor.RenderMember` | src/Decisya.ServiceDefaults/Logging/SensitiveDataMaskingProcessor.cs:475-494 | A denied, marked or throwing member is masked without being read; any other is processed one level deeper. |
| `MaskingProcessor.SensitiveDataMaskingProcessor.ProcessElements` | src/Decisya.ServiceDefaults/Logging/SensitiveDataMaskingProcessor.cs:405-418 | A collection of texts is processed element by element and handed on unchanged when no element changed. |
| `MaskingProcessor.RenderBudget.TryConsume` | src/Decisya.ServiceDefaults/Logging/SensitiveDataMaskingProcessor.cs:550-550 | A try succeeds while the budget is above zero and takes one off either way. |
| `Apportionment.SharesAddUp` | src/Decisya.SharedKernel/Money/Money.cs:194-226 | The shares of every total and list of positive weights add up to the total. |
| `Apportionment.ShareIsWithinItsQuota` | src/Decisya.SharedKernel/Money/Money.cs:198-205 | Every share is its exact quota rounded down or up, and the quota itself when that is whole. |
| `Apportionment.LeftoverBelowPositives` | src/Decisya.SharedKernel/Money/Money.cs:207-207 | The units left over are at least zero and fewer than the remainders above zero, so fewer than the shares. |
| `Apportionment.LargerRemainderFirst` | src/Decisya.SharedKernel/Money/Money.cs:209-218 | No index gets an extra unit while one with a strictly larger remainder does not. |
| `Apportionment.MidpointsRoundToEven` | src/Decisya.SharedKernel/Money/Money.cs:209-218 | At an exact midpoint an odd floor is raised to an even share before an even one is. |
| `Apportionment.ExtraNeedsRemainder` | src/Decisya.SharedKernel/Money/Money.cs:223-226 | Only an index whose quota is not whole ever gets an extra unit. |
| `Apportionment.ScalingChangesNothing` | src/Decisya.SharedKernel/Money/Money.cs:182-205 | Multiplying every weight by one positive factor changes no share. |
| `Apportionment.EqualPartsLead` | src/Decisya.SharedKernel/Money/Money.cs:90-106 | With equal weights the leading indices, and no others, get one unit more. |
| `Apportionment.RankIsPlace` | src/Decisya.SharedKernel/Money/Money.cs:214-218 | In a sorted order the index at place k is preceded by exactly k indices. |
| `Apportionment.SharesAreTheApportionment` | src/Decisya.SharedKernel/Money/Money.cs:194-226 | There is exactly one way to round the exact quotas down or up to the total so that no index is raised before one with a better claim (larger remainder, then an odd floor at an exact midpoint, then the lower index), and the shares are it. |
| `Apportionment.TiesGoToTheLowerIndex` | src/Decisya.SharedKernel/Money/Money.cs:214-218 | Of two equal remainders that no midpoint tells apart, the lower index is raised first. |
| `Money.FitsIffWholeMinorUnits` | src/Decisya.SharedKernel/Money/Money.cs:29-43 | The constructor's precision check accepts exactly the whole numbers of minor units. |
| `Money.RoundsToNearestEven` | src/Decisya.SharedKernel/Money/Money.cs:29-43 | The rounding of the precision check goes to the nearest whole minor unit, a half to the even one. |
| `Money.MinorUnitsRoundTrip` | src/Decisya.SharedKernel/Money/Money.cs:296-312 | Every 64-bit number of minor units converts to an amount the constructor accepts and back to itself. |
| `Money.AmountRoundTrip` | src/Decisya.SharedKernel/Money/Money.cs:296-312 | An accepted amount that has minor units is recovered from them exactly. |
| `Money.AllocationConserves` | src/Decisya.SharedKernel/Money/Money.cs:138-237 | The allocated amounts add up to the amount, in major units and with its sign. |
| `Money.AllocationMirrors` | src/Decisya.SharedKernel/Money/Money.cs:175-182 | Allocating the negated amount is refused alike or negates every share, index by index. |
| `Money.AllocationScales` | src/Decisya.SharedKernel/Money/Money.cs:182-205 | Scaling every ratio by one positive factor, within the ratios' width, changes no share. |
| `Money.EqualPartsLeadInMoney` | src/Decisya.SharedKernel/Money/Money.cs:90-106 | Of equal parts the leading ones carry one minor unit more, and no others. |
| `Money.SharesPassThePrecisionCheck` | src/Decisya.SharedKernel/Money/Money.cs:229-238 | Every share is an amount the constructor accepts in the currency. |
| `Money.AllocationNeverOverflows` | src/Decisya.SharedKernel/Money/Money.cs:182-205 | Within the limits the total weight, every product and every share stay inside the integers that hold them. |
| `Money.TooLargeIff` | src/Decisya.SharedKernel/Money/Money.cs:296-309 | An amount is refused as too large exactly when its minor units, without their sign, pass the largest 64-bit integer. |
| `Money.LeastLongIsRefused` | src/Decisya.SharedKernel/Money/Money.cs:181-182 | The least 64-bit integer of minor units fits but is refused, because the sign is taken off first. |
| `Money.AllocatesIff` | src/Decisya.SharedKernel/Money/Money.cs:138-182 | An allocation is made if and only if there are 1 to 10,000 ratios, all positive, the currency is set, and the unsigned minor units are below 2^63. |
| `Money.AllocationIsTheApportionment` | src/Decisya.SharedKernel/Money/Money.cs:194-238 | Each allocated amount is, with the amount's sign and in its currency, the minor units of the one fair apportionment. |
| `Money.EarlierShareIsRaisedFirst` | src/Decisya.SharedKernel/Money/Money.cs:214-218 | The tie-break of equal remainders, said of the allocated amounts. |
| `MoneyAllocation.FloorDivIsFloor` | src/Decisya.SharedKernel/Money/Money.cs:280-285 | Division towards zero with its correction is floor division for every dividend, and the remainder is the floor remainder. |
| `MoneyAllocation.ExactQuotas` | src/Decisya.SharedKernel/Money/Money.cs:189-205 | The quota loop fills floors and remainders exactly and sums the floors, with no 128-bit overflow. |
| `MoneyAllocation.GiveLeftover` | src/Decisya.SharedKernel/Money/Money.cs:223-226 | Incrementing the front of the sorted order gives exactly the shares, whatever the array held besides. |
| `MoneyAllocation.Allocate` | src/Decisya.SharedKernel/Money/Money.cs:138-241 | The whole method over its arrays computes the allocation or the same refusal, in the same order of checks. |
| `MoneyAllocation.AllocateEqually` | src/Decisya.SharedKernel/Money/Money.cs:90-106 | The equal-parts form refuses the same part counts and otherwise allocates by ratios of one. |
| `TenantText.ParseOfPrinted` | src/Decisya.SharedKernel/Tenancy/TenantId.cs:143-166 | Reading the printed form of an initialized identifier gives that identifier. |
| `TenantText.PrintOfParsed` | src/Decisya.SharedKernel/Tenancy/TenantId.cs:143-166 | Printing what was read gives the text trimmed and in lower case. |
| `TenantText.ParsesIff` | src/Decisya.SharedKernel/Tenancy/TenantId.cs:143-196 | A text reads as an identifier exactly when it has at most 64 characters and is, but for case and surrounding ASCII whitespace, the text of that initialized identifier. |
| `TenantText.TextsAreDistinct` | src/Decisya.SharedKernel/Tenancy/TenantId.cs:238-238 | Two initialized identifiers never share a text. |
| `TenantText.PrintedForm` | src/Decisya.SharedKernel/Tenancy/TenantId.cs:238-238 | An identifier is initialized unless all its digits are zero; it then prints as 36 characters, hyphens at four places and lower-case hexadecimal digits elsewhere, and otherwise as nothing. |
| `TenantText.TryParse` | src/Decisya.SharedKernel/Tenancy/TenantId.cs:143-166 | The length cap, the trim loops and the shape loop compute the reading. |
| `TenantText.TrimAsciiWhitespace` | src/Decisya.SharedKernel/Tenancy/TenantId.cs:199-214 | The two index loops cut exactly the surrounding ASCII whitespace. |
| `TenantText.HasCanonicalShape` | src/Decisya.SharedKernel/Tenancy/TenantId.cs:178-196 | The scan accepts exactly hyphens at four places and hexadecimal digits elsewhere. |
| `TenantText.ClaimsAreNeverConfused` | src/Decisya.SharedKernel/Tenancy/TenantResolution.cs:79-89 | Only a missing claim means no tenant, and a claim means a tenant exactly when it is that tenant's text. |
| `TenantKeys.KeysAreInjective` | src/Decisya.SharedKernel/Tenancy/TenantKey.cs:53-61 | Two keys of either form are equal exactly when their tenants and all their segments are. |
| `TenantKeys.SplitOfKey` | src/Decisya.SharedKernel/Tenancy/TenantKey.cs:53-61 | Splitting a built key at its separator gives the tenant's text and then the segments. |
| `TenantKeys.NoKeyStartsWithAnotherTenant` | src/Decisya.SharedKernel/Tenancy/TenantKey.cs:53-61 | No key of one tenant starts with another tenant's text. |
| `TenantKeys.LengthIsReal` | src/Decisya.SharedKernel/Tenancy/TenantKey.cs:90-105 | The length added up in the loop is the real length of both forms. |
| `TenantKeys.BuildsIff` | src/Decisya.SharedKernel/Tenancy/TenantKey.cs:75-107 | A key is built exactly for an initialized tenant and a non-empty list of valid segments whose key has at most 512 characters. |
| `TenantKeys.FirstBadSegmentDecides` | src/Decisya.SharedKernel/Tenancy/TenantKey.cs:90-97 | The first segment that breaks a rule decides the error, by the rule it breaks. |
| `TenantKeys.ObjectKeysNeverClimb` | src/Decisya.SharedKernel/Tenancy/TenantKey.cs:137-140 | No part of an object key is empty, `.` or `..`. |
| `TenantKeys.EqualKeysAreTheSameKey` | src/Decisya.SharedKernel/Tenancy/TenantKey.cs:123-124 | Comparing cache keys alone decides equality of tenant, segments and object key. |
| `TenantKeys.For` | src/Decisya.SharedKernel/Tenancy/TenantKey.cs:75-107 | The loop over the segments builds that key or reports the first fault, in the order of its checks. |
| `TenantStore.GuardPassesIff` | src/Decisya.Infrastructure.Persistence/TenantDbContext.cs:206-268 | The guard passes exactly when nothing is written under None, never under Invalid, and under a tenant when every written entity was and stays in it. |
| `TenantStore.OthersNeverTouchATenant` | src/Decisya.Infrastructure.Persistence/TenantDbContext.cs:206-268 | Over any run in which a tenant takes no step its rows stay as they are, whatever other tenants attach, forge or save. |
| `TenantStore.NoTenantSeesAndWritesNothing` | src/Decisya.Infrastructure.Persistence/TenantDbContext.cs:58-64 | Runs under None and Invalid change nothing; a query under None is empty, a save under None succeeds exactly when it writes nothing, and everything under Invalid is refused. |
| `TenantStore.RowsNeverChangeTenant` | src/Decisya.Infrastructure.Persistence/TenantDbContext.cs:258-266 | As long as a row exists it belongs to one tenant, over every run of every tenant. |
| `TenantStore.TenantsDoNotInterfere` | src/Decisya.Infrastructure.Persistence/TenantDbContext.cs:161-165 | In a run of any tenants, each sees step by step what it would see alone with its own rows and ends with the same rows, as long as it inserts no key another tenant uses. |
| `TenantStore.SaveIsBlindToOthersIff` | src/Decisya.Infrastructure.Persistence/TenantDbContext.cs:175-186 | A save does the same with and without other tenants' rows exactly when it inserts none of their keys or would fail anyway. |
| `TenantStore.CollisionShows` | src/Decisya.Infrastructure.Persistence/TenantDbContext.cs:175-186 | The limit is real: inserting a key another tenant has used is turned away by the database. |
| `TenantStore.StepLeavesOthersAlone` | src/Decisya.Infrastructure.Persistence/TenantDbContext.cs:249-264 | One step under another tenant, None or Invalid changes none of a tenant's rows, with any forged original tenant. |
| `TenantStore.TenantStep` | src/Decisya.Infrastructure.Persistence/TenantDbContext.cs:206-268 | A tenant's query answers with all of its rows and no other; its save is refused exactly when an entity does not stay in the tenant, commits exactly when also every statement finds its row, and then leaves every key as the last entity to write it says. |
| `TenantStore.SaveWritesIff` | src/Decisya.Infrastructure.Persistence/TenantDbContext.cs:111-114 | The statements of a save all succeed if and only if each insert finds no row and each update and delete a row of its original tenant; the result is, key by key, what the last write left. |
| `TenantStore.GuardReportsTheFirst` | src/Decisya.Infrastructure.Persistence/TenantDbContext.cs:217-267 | A refused save reports what is wrong with the first entity that is not allowed. |
| `TenantDbContexts.TenantDbContext.EnforceTenantIsolation` | src/Decisya.Infrastructure.Persistence/TenantDbContext.cs:206-268 | The loop over the tracked entries reports the first violation, or none. |
| `TenantDbContexts.TenantDbContext.SaveChanges` | src/Decisya.Infrastructure.Persistence/TenantDbContext.cs:175-186 | Guard first, then one transaction: the outcome, the database and the tracked entries are those of the step, and a refusal sends nothing. |
| `TenantDbContexts.TenantDbContext.Query` | src/Decisya.Infrastructure.Persistence/TenantDbContext.cs:58-64 | A query gives the rows of the tenant that is current when it runs. |
| `TenantDbContexts.SavingAgainWritesNothing` | src/Decisya.Infrastructure.Persistence/TenantDbContext.cs:175-179 | After an accepted save, saving again passes and changes nothing. |
| `RequestCallers.RequestCaller.Set` | src/Decisya.Api/Authentication/RequestCaller.cs:60-79 | The first call with a user id fixes every fact, a later one changes nothing, and an admin fact never stands beside a tenant. |
| `MessageHop.ReadsExactlyThePrintedForms` | src/Decisya.Api/Messaging/EnvelopeFacts.cs:35-54 | The receive side accepts exactly the printed forms of initialized tenants. |
| `MessageHop.TryReadTenant` | src/Decisya.Api/Messaging/EnvelopeFacts.cs:35-54 | Missing for no text, malformed for any other text that is not a printed form. |
| `MessageHop.IsAcceptableCallerId` | src/Decisya.Api/Messaging/EnvelopeFacts.cs:60-81 | The scan accepts 1 to 128 characters without a control character and without whitespace at either end. |
| `MessageHop.EnvelopeTenantStamp.Stamp` | src/Decisya.Api/Messaging/EnvelopeTenantStamp.cs:108-120 | Without an ambient tenant nothing is stamped; otherwise both facts are overwritten in place, whatever the options held. |
| `MessageHop.EnvelopeTenantMiddleware.Before` | src/Decisya.Api/Messaging/EnvelopeTenantMiddleware.cs:52-90 | The continuation, the scope's facts and the log scope are those of the receiving function. |
| `MessageHop.ContinuesIff` | src/Decisya.Api/Messaging/EnvelopeTenantMiddleware.cs:52-90 | A handler runs exactly for an envelope with a printed tenant and an acceptable caller, in a fresh scope or one already set to just those facts; a refusal leaves the scope as it was. |
| `MessageHop.RefusedBecause` | src/Decisya.Api/Messaging/EnvelopeTenantMiddleware.cs:52-90 | Why a message is refused: missing for no tenant text, no caller for an unacceptable caller id, a failure for a scope set to an invalid tenant, and malformed for any other text or a scope that does not agree. |
| `MessageHop.FirstTakenCounts` | src/Decisya.Api/Messaging/EnvelopeTenantMiddleware.cs:52-90 | Of any sequence of envelopes a fresh scope takes the facts of the first it can take, and stays fresh while there is none. |
| `MessageHop.HopsKeepTheOrigin` | src/Decisya.Api/Messaging/EnvelopeTenantMiddleware.cs:70-76 | Over any number of hops and whatever the senders' options held, the first hop refuses or every scope sees the origin's tenant and caller with admin and MFA false; which of the two is decided by the caller id alone. |
| `MessageHop.NothingLeavesWithoutATenant` | src/Decisya.Api/Messaging/EnvelopeTenantStamp.cs:110-114 | A scope without a tenant sends nothing, over any number of hops. |
| `MessageHop.ScopesAreSetOnce` | src/Decisya.Api/Messaging/EnvelopeTenantMiddleware.cs:78-87 | Once set, a scope is unchanged by any sequence of envelopes. |
| `PathMatcher.MatcherIsWildcard` | deploy/compose/stackguards.py:1102-1119 | For every pattern and path the matcher equals one recursive wildcard match of the lower-cased texts: a star at an end is any text, and with a star inside, stars do not cross a slash. |
| `PathMatcher.GlobIsWildcard` | deploy/compose/stackguards.py:1113-1115 | The regular expression built for an inner star matches in full exactly what the wildcard match without slash crossing does. |
| `PathMatcher.CaseNeverMatters` | deploy/compose/stackguards.py:1107-1107 | Letter case of either argument never changes the answer. |
| `EdgeTable.SummaryKeepsMeaning` | deploy/compose/stackguards.py:1046-1063 | Routes with one plain summary match the same requests and do the same with them. |
| `EdgeTable.AcceptedAnswersAsTheTable` | deploy/compose/stackguards.py:1293-1310 | In an accepted configuration every site answers every request as the table does. |
| `EdgeTable.IdSiteProxiesIff` | deploy/compose/stackguards.py:1143-1150 | The id site on 8443 passes on exactly what climbs nowhere, hides no encoded dot or slash, and is of the published realm or resources from outside or of the realm from the back channel. |
| `EdgeTable.AdminListenerProxiesIff` | deploy/compose/stackguards.py:1156-1161 | The id site on 8444 passes on exactly such admin paths and resources from outside. |
| `EdgeTable.AppSiteProxiesIff` | deploy/compose/stackguards.py:1136-1142 | The app site passes on exactly what climbs nowhere and comes from outside, and of the back-channel logout only itself, posted from the idp subnet. |
| `EdgeTable.ApiSiteProxiesIff` | deploy/compose/stackguards.py:1151-1155 | The api site passes on exactly what lies below `/api/` and comes from the back channel. |
| `EdgeTable.AdminPathsStayOnTheirListener` | deploy/compose/stackguards.py:1143-1161 | In every accepted configuration no admin path reaches the identity provider through 8443, and 8444 passes on nothing outside its admin and resource patterns, so no path of the published realm. |
| `EdgeTable.LogoutOnlyFromTheIdp` | deploy/compose/stackguards.py:1138-1139 | In every accepted configuration a path starting with the back-channel logout is passed on only as that path, posted from the idp subnet. |
| `EdgeTable.ClimbingPathsAreRefused` | deploy/compose/stackguards.py:1127-1129 | In every accepted configuration every request is answered, climbing paths are refused everywhere and encoded ones on both id sites. |
| `EdgeTable.RefusedTexts` | deploy/compose/stackguards.py:1127-1129 | What is refused is exactly a path that holds two dots in a row, and one that holds an encoded dot, slash or backslash in any letter case. |
| `EdgeTable.AdminPathsStandApart` | deploy/compose/stackguards.py:1071-1074 | No path is both an admin path and a path of the published realm or its resources. |
| `EdgeGuard.CaddyProblems` | deploy/compose/stackguards.py:1293-1310 | The guard's loops list no problem exactly when the sites are the four of the layout and every route summarizes to its row. |
| `EdgeGuard.CompareSite` | deploy/compose/stackguards.py:1300-1306 | One problem for a wrong number of routes, else one for each route that differs, counted from one. |
| `EdgeGuard.AcceptedIffNoProblem` | deploy/compose/stackguards.py:1293-1310 | The list of problems is empty exactly on accepted configurations. |
| `EdgeRules.EdgeRuleProblems` | deploy/compose/stackguards.py:1198-1260 | The nested loops over sites, routes, patterns and probes list no problem exactly when every site obeys the rules and the published routes are the listed ones, in both directions. |
| `EdgeRules.TheTableObeysTheRules` | deploy/compose/stackguards.py:1198-1260 | The rules find nothing in any configuration whose routes are the table's, so they never contradict the comparison. |
| `AdminPatterns.AdmitsNoAdminPathIff` | deploy/compose/stackguards.py:1102-1119 | For every pattern, wherever its stars stand: no path it matches is an admin path if and only if the pattern, read alone, reaches neither admin root. |
| `AdminPatterns.SetAdmitsNoAdminPathIff` | deploy/compose/stackguards.py:1237-1245 | The same for the pattern set of a route. |
| `EdgeRules.KeycloakRouteAdmitsNoAdminPathIff` | deploy/compose/stackguards.py:1237-1245 | A route to the identity provider on 8443 that obeys the rules admits no admin path if and only if each of its patterns is apart from the admin roots. |
| `EdgeRules.RulesKeepAdminPathsOutIff` | deploy/compose/stackguards.py:1198-1260 | In a configuration that obeys the rules no such route admits an admin path if and only if all their patterns are apart. |
| `EdgeRules.ApartRoutesKeepAdminPathsOut` | deploy/compose/stackguards.py:1198-1260 | Then no request for an admin path is answered from the identity provider by any site on 8443. |
| `EdgeRules.PublishedPatternsAreApart` | deploy/compose/stackguards.py:1071-1074 | The published patterns of the table are apart from the admin roots; the path between the probes is not. |
| `EdgeRules.RulesAloneAdmitAnAdminPath` | deploy/compose/stackguards.py:1237-1245 | The rules alone do not keep admin paths off 8443: a configuration of all four sites obeys every rule, is not accepted by the comparison with the table, and passes an admin path between the probes on. |
| `EdgeRules.SiteRuleProblems` | deploy/compose/stackguards.py:1207-1255 | One site's loop finds nothing exactly when the site obeys the rules, and collects exactly its published routes. |
| `EdgeRules.PatternProblems` | deploy/compose/stackguards.py:1184-1195 | A pattern set of an id site is without problem exactly when no pattern holds a percent sign, a double slash or an inner star. |
| `EdgeRules.AllowedPatternsAreSimple` | deploy/compose/stackguards.py:1184-1195 | A pattern that the rules let pass on an id host holds no percent sign, no empty part and no star but at its ends. |
| `EdgeRules.ProbesAreKeptOut` | deploy/compose/stackguards.py:1237-1250 | No row to the identity provider that obeys the rules admits one of the twelve admin probes on 8443, or one of the three other probes on 8444. |
| `EdgeRules.SourcesAreTold` | deploy/compose/stackguards.py:1207-1236 | A proxy row that obeys the rules takes requests from the stack's own networks alone or from everywhere but there; on 8444 it passes admin paths and resources to the identity provider and nothing else. |
| `PathMatcher.Matches` | deploy/compose/stackguards.py:1102-1119 | The matcher's branches, in their order, compute the matching relation. |
| `CertificateRotation.RotationKeepsTheCurrentPair` | deploy/compose/stackctl.py:1328-1330 | Wherever a rotation is cut off, the certificate it started from stands beside its own password in the current or the previous pair. |
| `CertificateRotation.CheckNamesFirstAndSecondWrite` | deploy/compose/stackctl.py:447-453 | From healthy files a cut-off rotation is named exactly after its first and second write. |
| `CertificateRotation.ThirdWriteMismatches` | deploy/compose/stackctl.py:1328-1330 | After the third write the new certificate does not stand beside its own password anywhere, a state `check` accepts although the comment says an interruption is named. |
| `CertificateRotation.CheckIsSilentIff` | deploy/compose/stackctl.py:435-453 | The checks of the four files are silent exactly when all are present and well shaped, the previous pair is whole and it is not the current certificate. |
| `CertificateRotation.CommandsAreMadeIff` | deploy/compose/stackctl.py:1306-1327 | A rotation is made exactly from four whole files whose previous pair is empty or may be dropped, an addition exactly where none of the four files is there. |
| `CertificateRotation.OnlyRetireLoses` | deploy/compose/stackctl.py:1306-1384 | Over any history of additions, rotations without `--drop-previous` and retirements, each cut off anywhere, only a retirement ever loses a certificate. |
| `CertificateRotation.RetireLosesIff` | deploy/compose/stackctl.py:1371-1384 | A retirement loses a kept certificate exactly when it stands only in the previous pair and at least one write is made. |
| `CertificateRotation.DroppingRotationLosesIff` | deploy/compose/stackctl.py:1322-1330 | A rotation with `--drop-previous` loses a kept certificate exactly when it stands only in the previous pair and two writes are made, or one that changes the certificate there. |
| `CertificateRotation.DroppingHealthyLosesIff` | deploy/compose/stackctl.py:1322-1330 | From files that `check` accepts, one write is enough: it is lost exactly when it stands only in the previous pair and any write is made. |
| `CertificateRotation.OnlyRetireOrDropLoses` | deploy/compose/stackctl.py:1306-1384 | Over any history whatever, each command cut off anywhere, only a retirement or a rotation with `--drop-previous` ever loses a certificate. |
| `CertificateRotation.RetireUndoesAnEarlyStop` | deploy/compose/stackctl.py:1371-1384 | Retiring after a rotation that stopped at its first or second write gives back the files from before it. |
| `CertificateRotation.RetireAfterTheThirdWriteLoses` | deploy/compose/stackctl.py:1371-1384 | Retiring after the third write loses the only certificate that has its password. |
| `CertificateRotation.AddIsNamedUntilComplete` | deploy/compose/stackctl.py:1279-1296 | A cut-off addition is named until its last write. |
| `CertificateRotation.WholeRotation` | deploy/compose/stackctl.py:1306-1333 | A rotation that is not cut off moves the current pair to the previous one and puts the new pair in its place; a refused one changes nothing. |
| `CertificateRotation.RotateRetireRotate` | deploy/compose/stackctl.py:1306-1384 | Rotating, retiring and rotating again from whole files leaves the last two certificates in their places. |
| `SecretFolders.SecretFolder.RotateCertificate` | deploy/compose/stackctl.py:1306-1333 | The command, with its refusals in order and its writes cut off by any budget, leaves the files the history step says. |
| `SecretFolders.SecretFolder.RetirePreviousCertificate` | deploy/compose/stackctl.py:1371-1384 | The same for retirement, which writes nothing when there is nothing to retire. |
| `SecretFolders.SecretFolder.SecretsAdd` | deploy/compose/stackctl.py:1279-1296 | The same for addition, which refuses when any of the four files exists. |
| `SecretFolders.SecretFolder.WritePair` | deploy/compose/stackctl.py:1274-1276 | The files are replaced in order, up to the cut. |
| `SecretFolders.SecretFolder.SecretProblems` | deploy/compose/stackctl.py:462-498 | The loop over the file names and the derived checks list exactly the modelled problems. |

## Left out

- SentOnce.SucceededTokenNeverResent: holds in runs where no holder outlives the lock and no write-back fails. Per state the condition is exact (`SentOnce.NextRefreshSendsSpentIff`); a whole run that breaks one of the two and happens not to resend is not characterized.
- SessionServices.KeycloakTokenClient.RefreshAsync: a cancelled send is one of the faults; the cancellation that propagates, while the answer is read, may in the model also come without the token being spent, which the source cannot do. A response that omits the refresh token is not a case.
- SidIndex.IndexHolds: the condition on runs is sufficient; exactness is stated for the single back-channel delete (`SidIndex.DeleteKeepsIndexIff`) and not for whole runs.
- NonInterference.MaskingIsNonInterfering: a member whose type the walk goes on from holds null or a value of exactly its declared type, an element of a collection fits one of its declared element types, and a value handed on as it is shows its public member graph, not what an overridden text method may print; a collection below the top of such a value shows its type and size.
- NonInterference.MaskingIsNonInterfering: types whose properties cannot be listed have no members in the model, as in the analysis, so nothing is claimed about what those properties would show.
- MaskedOutput.TextShowsAsMatched: what the shape matcher makes of a text is a parameter; its one law is that a text it does not change is the text it gives back.
- MaskedOutput.RecordShows: a rendered object is its members, not yet the text they are formatted into.
- Masking.RecordIsBounded: counts rendered objects and members, not the length of texts, which the text masking cuts.
- MaskedText.CaseDoesNotMatter: the lower-casing of one character is a parameter, so the invariant culture's table is not modelled.
- EdgeGuard.CaddyProblems: covers the site sets and the comparison of routes with the table; the remaining checks of the guard (forms of listen addresses, pass-through, forwarding, TLS, request size) only add problems, so they can only reject more configurations.
- EdgeRules.EdgeRuleProblems: says when the list is empty and not which problems it holds; the two constant tables it compares with each other first agree and are one constant here.
- EdgeTable.SummaryKeepsMeaning: a route is the fields its summary reads; other handlers in the same route, routes nested inside them, and matchers given as empty lists are outside it.
- PathMatcher.MatcherIsWildcard: letters are lower-cased one by one and only in ASCII; paths are already decoded and cleaned.
- SessionModel: the provider returns a new refresh token with every success, as strict rotation does; the fallback that keeps the previous token when a response omits it is not a step.
- SessionModel: random session keys, lock values and token chains are fresh; ticket protection is perfect, so an undecodable entry is one more failed read.
- SessionModel: renewing a ticket is not a step, because expiration is absolute and not sliding.
- The provider's own expiry of a chain is the event that revokes it; access tokens are not validated by the model.
- AccessTokens.LogoutEndpoint.BackchannelLogoutAsync: starts after the logout token was validated; the form, size and token checks before it are not modelled.
- AccessTokens.LogoutEndpoint.LogoutAsync: the redirect to the identity provider and the choice of response format after the local logout are not modelled.
- CookieHeader.RewritingRemovesExactlyTheNamed: reads the header back with the guard's own splitting, not with the web framework's parser.
- Money.Allocation: amounts are reals without the range of a decimal, so more amounts are covered than the type can hold; equality, comparison, formatting and the currency table are left out.
- MoneyAllocation.Allocate: the ratios are read once as a sequence; a list that changes between reads is therefore not represented.
- TenantStore.Execute: one table with one key per entity; owned types, inheritance, cascades, generated keys and the ordering of statements by the mapper are left out, and a save's statements are sent in the order tracked.
- TenantDbContexts.TenantDbContext.Query: returns rows and does not track them; the tracked entries are any list whatever, which covers what tracking could produce.
- MessageHop.Hop: a message bus delivers the stamped options as the envelope; serialization, and the framework's own bus inside a generated handler, are left out.
- RequestCallers.RequestCaller.Set: how the caller's facts are taken from a validated token is not modelled.
- SecretFolders.SecretFolder.SecretProblems: file permissions, ownership, encoding, trailing newlines and the other secrets' checks are left out; a file is absent or a text.
- CertificateRotation.Certificate: that a certificate text is a key store its password opens is not modelled; only standing beside one's own password is.
- Text masking by regular expression, the exception text, caches, telemetry, the Redis, HTTP and identity-provider clients, dependency injection, the proxy, rate limits, the front end, database migration and the Compose checks: not modelled, or a parameter where a core needs the result.
