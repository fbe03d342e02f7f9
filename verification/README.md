# Verification of the device-protection backend

This Dafny project models the stateful core of the backend and proves what it
guarantees over every run and every interleaving of its calls.

| part | files |
|---|---|
| PC-agent pairing | `PairingTables`, `PairingMachine`, `PairingInvariant`, `PairingEffects`, `PairingTheorems`, `PairingRefinement`, `PairingStore`, `PairingUseCase` |
| registration and refresh tokens | `AuthTables`, `AuthMachine`, `AuthInvariant`, `AuthTheorems` (module `RefreshTheorems`), `RegistrationTheorems`, `OtpTightness`, `AuthEffects`, `AuthAnswers`, `AuthStore`, `AuthUseCase` |
| MQTT 3.1.1 codec, subscriber loop, publisher | `MqttCodec`, `MqttSession`, `MqttWire` |
| alerts, devices, notification clean-up | `Alerts`, `AlertMachine`, `AlertOverlap`, `AlertTightness`, `AlertEffects`, `AlertUseCase`, `Devices` |
| shared vocabulary | `Base` (modules `Base` and `Text`) |

`dafny verify dfyconfig.toml` verifies the whole project.

## How the model is built

**Tables and statements.** Each SQL table is a map. Each SQL statement or
transaction is one function from the tables before it to the tables after it
(`PairingTables`, `AuthTables`), with the unique constraints and foreign keys of
the final schema. The repository classes (`PairingStore`, `AuthStore`,
`Devices`, `AlertUseCase`) change their database's fields step by step and are
proved to do exactly what those functions say.

**Calls in flight.** A use-case call that issues several statements is a record
with a program counter. `PairingMachine`, `AuthMachine` and `AlertMachine`
interleave any number of such records, one statement at a time; an action that is
not possible leaves the state as it is, so every sequence of actions is a run and
the main theorems quantify over all sequences.

**The same steps, imperatively.** The use-case classes run the code's own
control flow. For pairing, registration, tokens and the storing of alerts they
run against an adversary: before each statement the tables become whatever `env`
says, for the other calls may have done anything in between. Each method is
proved to take exactly the steps of the state machine and to return the
machine's answer. Conversely every call of every interleaved run answers as those
steps do at the moments the run gives it (`CallsFollowTheirMoments` in each
machine). So a theorem about all interleavings speaks about the method bodies.
The device methods, and the notification and clean-up that follow a stored alert,
run on a device table that no other call changes meanwhile.

**What steps mean.** The `Effects` files say in the rows' own terms, with plain
numbers and without the model's own helper functions, what each statement changes
and how each call ends that nobody disturbs: every success, every refusal, every
field written. `AuthAnswers` explains every answer of every call in every run by
what the tables and the clock showed at that call's own moments. `MqttWire` does
the same for bytes.

**Connection.** A network connection is a byte sequence to read, a byte sequence
written, and a number of writes that still succeed.

**Assumptions.** Transactions are atomic and serialisable: under PostgreSQL's
READ COMMITTED level, revoking all tokens of a user and registering a device
could each miss a row that a concurrent transaction has not committed yet, and
that is not modelled. Clock readings are whole nanoseconds and never decrease; a
call may use a reading that is older than its statement. bcrypt and SHA-256 are
injective, and a comparison matches the hashed text and nothing else. Register
tokens cannot be forged and are not interchangeable with access tokens: a
registration needs a token that some verification handed out. Generated secrets
are base64 text, not empty and without white space at the ends. Generated ids and
codes need not be fresh, because the constraints decide; only the row ids of
alerts are taken to be. That an agent id is never used twice, which the alert
machine assumes, is proved for pairing (`DeletedAgentsStayDeleted`). Random draws,
the push service's answers, the alert handler's failures, the times of alerts and
the row a query picks among equals are arbitrary inputs. Runs start from empty
tables. Text is ASCII.

## What the code does not guarantee

Where the code misses a property, the exact condition is proved.

* Verification reads an OTP row and writes its verdict in separate statements.
  If at most n verifications of one row overlap, attempts stay within
  maximum + n - 1 and at most n calls succeed (`OtpBounds`); for every n there is
  a run that reaches both bounds (`AttemptsReachTheBound`, `WinnersReachTheBound`).
  Without overlap the limit holds and a code works once.
* Alert de-duplication queries and saves in separate statements, and two
  subscribers share it (`cmd/server/main.go:145-168`). The query always decides as
  a filter on the largest saved time does (`HistoryIsAFilter`), and a save keeps
  the stored times more than five seconds apart exactly if a query at that moment
  finds nothing (`SavingKeepsSpaced`). If at most n deliveries of one agent and type
  are between query and save at any time, the stored alerts fall into at most n
  classes that are each spaced (`AlertsFallIntoClasses`), which bounds their density
  (`AlertDensity`); for every n there are runs that reach the bound, with n alerts of
  one time (`DensityIsReached`). Without overlap, n = 1, they are spaced
  (`SpacedWithoutOverlap`).
* A topic is recovered by the reader exactly if it has at most 65535 bytes; the
  length prefix of a longer one is cut (`PublishRoundTrip`).
* CONNECT sets the password flag without the user-name flag when only a password
  is configured, which section 3.1.2.9 of MQTT Version 3.1.1 forbids. The packet
  is understood exactly if the fields fit and that case is excluded
  (`ConnectIsUnderstood`).
* A status call that has found its session can still fail (`StatusCanFail` gives a
  run). It does so exactly if the session names an agent and that agent's owner
  deleted it before the call's last step (`StatusFailsExactlyAfterDelete`,
  `StatusSucceedsWithoutAgent`).

## Model

| member | source | states |
|---|---|---|
| PairingTheorems.OneTimeCredential | internal/usecase/pairing_usecase.go:165-195 | In every run at most one status call ever returns a secret for an agent id, and one secret only. |
| PairingTheorems.OneSecretPerSession | internal/usecase/pairing_usecase.go:120-196 | The same per pairing session: of all calls on it at most one returns a secret. |
| PairingTheorems.StoredHashIsDelivered | internal/repo/postgres/pc_agent_repo.go:79-101 | An existing agent's stored hash is the hash of a secret if and only if some call returned that secret. |
| PairingTheorems.DeliveredSecretVerifies | internal/usecase/pairing_usecase.go:198-217 | While the agent exists, its delivered secret passes the credential check and every other text is rejected. |
| PairingTheorems.CheckedCallCompletes | internal/usecase/pairing_usecase.go:215-219 | A verification past its check leaves the agent online and seen now, with the presented secret's hash and its protection status unchanged, or fails because the agent is gone; nothing else can happen to it. |
| PairingTheorems.KeysStayUnique | internal/database/migrations/20260525100000_make_requested_pc_agent_id_unique.sql:2-4 | In every reachable state device codes and reserved agent ids are unique. |
| Text.TrimCuts | internal/usecase/pairing_usecase.go:58-59 | Trimming cuts white space off both ends and nothing else. |
| Text.LettersChangeCase | internal/usecase/pairing_usecase.go:98-98 | Changing case maps each letter to its counterpart and leaves every other character. |
| PairingTheorems.SessionsStayConsistent | internal/repo/postgres/pairing_session_repo.go:106-187 | In every reachable state: expired only after the expiry passed, confirmed in time, confirmed exactly if there is a confirmer, and the agent link is set exactly while the reserved agent exists and then names it with its owner; `cancelled` never occurs. |
| PairingTheorems.AgentsComeFromOneSession | internal/repo/postgres/pairing_session_repo.go:149-181 | Every agent row has exactly one confirmed session that points to it, with its owner and names. |
| PairingTheorems.OnlineAgentsAreArmed | internal/repo/postgres/pc_agent_repo.go:103-113 | An online agent has a last-seen time and a secret that some call delivered. |
| PairingTheorems.PendingIsNeverStale | internal/usecase/pairing_usecase.go:142-163 | A pending answer rests on a clock reading not past the expiry, whatever raced with the call. |
| PairingTheorems.SecretOrIssued | internal/usecase/pairing_usecase.go:160-195 | A successful answer names an agent exactly if it carries a secret or the issued flag, never both, and only when confirmed. |
| PairingTheorems.SecondFindSucceeds | internal/usecase/pairing_usecase.go:144-152 | After a failed expiry the session is always found again, confirmed or expired: the not-found branch is dead. |
| PairingTheorems.AnswersAreReal | internal/usecase/pairing_usecase.go:127-163 | The status and agent a call reports are those the session row really had at one moment while the call ran. |
| PairingTheorems.SeenRowWasReal | internal/usecase/pairing_usecase.go:127-158 | The row a call works on was the table's row at a moment while the call ran. |
| PairingEffects.PairedPoll | internal/usecase/pairing_usecase.go:160-196 | An undisturbed poll of a session with an agent delivers the drawn secret and stores its hash if the agent has none, and otherwise reports it issued and changes nothing. |
| PairingEffects.PlainPoll | internal/usecase/pairing_usecase.go:142-163 | An undisturbed poll of a session without an agent reports it as it is, except that a pending one past its expiry is first expired, and only then. |
| PairingEffects.UnknownPoll | internal/usecase/pairing_usecase.go:127-137 | An undisturbed poll with an id that does not fit the code is a mismatch if some session has the code, and not found otherwise. |
| PairingEffects.CreateEffect | internal/repo/postgres/pairing_session_repo.go:21-46 | A new session is pending for ten minutes with the given names and nobody's agent, and goes in exactly if its id, code and reserved agent id are unused. |
| PairingEffects.ConfirmEffect | internal/repo/postgres/pairing_session_repo.go:99-194 | Every outcome of a confirmation with its error and the rows it leaves, down to the offline, unprotected agent without a secret. |
| PairingEffects.DeleteEffect | internal/repo/postgres/pc_agent_repo.go:137-157 | Only the owner's deletion does anything: the agent goes, the references to it are cleared, every other field and row stays. |
| PairingEffects.OwnerProtectEffect | internal/usecase/pairing_usecase.go:290-295 | After the owner's update the row holds the requested protection status and is otherwise as before; nobody else's update does anything. |
| PairingEffects.OwnProtectEffect | internal/usecase/pairing_usecase.go:243-254 | After the agent's own update the row holds the requested protection status and is otherwise as before; an agent deleted meanwhile is answered as a wrong credential. |
| PairingEffects.CredentialAlone | internal/usecase/pairing_usecase.go:198-257 | An undisturbed credential call is refused without a change exactly if the agent is unknown or the secret is not its own; otherwise the agent is online, seen now, has the requested protection, and is the answer. |
| PairingEffects.VanishedSession | internal/usecase/pairing_usecase.go:145-148 | Where the second look-up finds nothing the call answers not found. |
| PairingTheorems.PairingCompletes | internal/usecase/pairing_usecase.go:96-196 | From every reachable state an unexpired pending session can be completed: a registered user's confirmation followed by a poll delivers the secret of the reserved agent. |
| PairingTheorems.RunsOnlyMoveForward | internal/repo/postgres/pairing_session_repo.go:87-194 | Between any two moments of a run sessions only move forward, agents keep owner, names and hash, and no claimed agent id is inserted again. |
| PairingTheorems.DeletedAgentsStayDeleted | internal/repo/postgres/pc_agent_repo.go:137-157 | An agent id that was deleted never exists again. |
| PairingTheorems.GoneMeansDeletedByOwner | internal/usecase/pairing_usecase.go:268-281 | A claimed agent that is missing was removed by a delete step of the user who owned it at that step. |
| PairingTheorems.StatusFailsExactlyAfterDelete | internal/usecase/pairing_usecase.go:160-196 | A returned call whose session names an agent failed if and only if that agent's owner deleted it before the call's last step, and then as agent-not-found. |
| PairingTheorems.StatusSucceedsWithoutAgent | internal/usecase/pairing_usecase.go:160-163 | A returned call whose session names no agent did not fail. |
| PairingTheorems.EveryAnswerHasALastStep | internal/usecase/pairing_usecase.go:120-196 | Every returned status call has such a last step in the run. |
| PairingTheorems.OvertakenPollFails | internal/usecase/pairing_usecase.go:167-170 | In every reachable state with a paired session, a poll that the owner's deletion overtakes after the session was read fails. |
| PairingTheorems.StatusCanFail | internal/usecase/pairing_usecase.go:57-196 | A run from the empty state in which a status call finds its session and fails. |
| PairingMachine.CallsFollowTheirMoments | internal/usecase/pairing_usecase.go:120-257 | A status or credential call of any interleaved run is exactly where its own statements, at the moments the run gave it, have brought it; in particular it answers as they do. |
| PairingTheorems.ProtectionChangesAreAuthorised | internal/usecase/pairing_usecase.go:222-304 | An agent's protection status changes only by a step of its owner or of a caller whose secret matches the stored hash at that step. |
| PairingTheorems.ConfirmNeverBreaksConstraints | internal/repo/postgres/pairing_session_repo.go:120-162 | For a registered user a confirmation fails only as unknown, not pending or expired: no missing reservation, no agent id conflict. |
| PairingRefinement.StepSimulates | internal/repo/postgres/pairing_session_repo.go:87-194 | Every step of the table-level system is one step of the abstract machine (open, lapse, pair, arm, unpair) or changes nothing in its view. |
| PairingRefinement.RunsSimulate | internal/usecase/pairing_usecase.go:57-304 | Every interleaved run is a run of that abstract machine from its empty state. |
| PairingRefinement.SessionHistoryIsAPath | internal/repo/postgres/pairing_session_repo.go:87-187 | Seen abstractly, a session's history is a path waiting to lapsed, or waiting to paired to unpaired, with user and agent fixed. |
| PairingInvariant.InvAlways | internal/usecase/pairing_usecase.go:57-304 | The global invariant over the tables and all calls in flight holds after every run. |
| PairingInvariant.StatusStepOk | internal/usecase/pairing_usecase.go:127-195 | Each statement of a status call keeps the table invariant, moves rows forward only, and keeps what the call knows true. |
| PairingInvariant.CallOkStable | internal/usecase/pairing_usecase.go:120-257 | What a call in flight relies on survives every step the others may take. |
| PairingTables.PendingRequestIsFree | internal/repo/postgres/pairing_session_repo.go:145-162 | The agent id a pending session reserved belongs to no agent and never did. |
| PairingTables.ConfirmSessionOk | internal/repo/postgres/pairing_session_repo.go:99-194 | The confirmation, in all its branches including the committed expiry, keeps the cross-table invariant and moves rows forward only. |
| PairingTables.DeleteAgentOk | internal/repo/postgres/pc_agent_repo.go:137-157 | A deletion with the SET NULL it triggers keeps the cross-table invariant. |
| PairingStore.PairingSessionRepository.Create | internal/repo/postgres/pairing_session_repo.go:21-46 | Inserts the row, or changes nothing exactly if its id, code or reserved id is taken. |
| PairingStore.PairingSessionRepository.Expire | internal/repo/postgres/pairing_session_repo.go:87-97 | Expires the row if it is pending and returns it, otherwise changes nothing. |
| PairingStore.PairingSessionRepository.Confirm | internal/repo/postgres/pairing_session_repo.go:99-194 | The transaction's table effect and result in all five branches, nothing partial. |
| PairingStore.PCAgentRepository.UpdateHashIfNull | internal/repo/postgres/pc_agent_repo.go:79-93 | Stores the hash exactly if the agent exists without one, and says whether it did. |
| PairingStore.PCAgentRepository.MarkVerified | internal/repo/postgres/pc_agent_repo.go:103-113 | Sets online and last seen on that row only and returns the new row. |
| PairingStore.PCAgentRepository.UpdateProtectionStatusByID | internal/repo/postgres/pc_agent_repo.go:115-124 | Sets the protection status of that row only. |
| PairingStore.PCAgentRepository.UpdateProtectionStatusByIDAndUserID | internal/repo/postgres/pc_agent_repo.go:126-135 | The same, only if the user owns the agent. |
| PairingStore.PCAgentRepository.DeleteByIDAndUserID | internal/repo/postgres/pc_agent_repo.go:137-157 | Removes the agent if the user owns it and clears exactly the sessions that pointed to it. |
| PairingUseCase.GenerateDeviceCode | internal/usecase/pairing_usecase.go:322-334 | Position i of the code is the alphabet letter the i-th random number selects. |
| PairingUseCase.AlphabetIs | internal/usecase/pairing_usecase.go:32-32 | The alphabet has 32 characters: the capital letters but I and O and the digits but 0 and 1, in order. |
| PairingUseCase.GeneratedCodesAreCanonical | internal/usecase/pairing_usecase.go:98-98 | Upper-casing and trimming leave every generated code as it was stored. |
| PairingUseCase.PairingUseCase.StartPairing | internal/usecase/pairing_usecase.go:57-94 | Whatever other calls do, the session created is the first of at most ten attempts that was not turned away, and only if all ten were is the code unavailable. |
| PairingUseCase.PairingUseCase.ConfirmPairing | internal/usecase/pairing_usecase.go:96-118 | Rejects blank input, otherwise is one confirmation transaction on the canonical code. |
| PairingUseCase.PairingUseCase.GetPairingStatus | internal/usecase/pairing_usecase.go:120-163 | Against arbitrary interference between its statements, the call takes exactly the machine's steps and returns within seven of them. |
| PairingUseCase.PairingUseCase.SettleAndReport | internal/usecase/pairing_usecase.go:142-163 | The same for the part after the session was found. |
| PairingUseCase.PairingUseCase.IssueOrReport | internal/usecase/pairing_usecase.go:165-195 | The same for the half that issues the secret or reports it issued. |
| PairingUseCase.PairingUseCase.CheckCredential | internal/usecase/pairing_usecase.go:198-257 | Verification and the agent's own protection update take exactly the machine's steps under interference. |
| PairingUseCase.PairingUseCase.DeletePCAgent | internal/usecase/pairing_usecase.go:268-281 | Deletes exactly if the trimmed user owns the trimmed agent id; otherwise not found and nothing changes. |
| PairingUseCase.PairingUseCase.UpdatePCAgentProtection | internal/usecase/pairing_usecase.go:283-304 | If the user owns the agent, the row returned and stored has the requested protection status and is the old one in every other field; otherwise not found and nothing changes. |
| RefreshTheorems.OneRefreshSucceeds | internal/usecase/auth_usecase.go:259-315 | Of any number of refresh calls with one token, in any interleaving, at most one succeeds, with one next token. |
| RefreshTheorems.RefreshMovesOwnership | internal/repo/postgres/refresh_token_repo.go:46-94 | After a successful refresh the old token is revoked for good and the new one belongs to the same user. |
| RefreshTheorems.ChainsArePaths | internal/repo/postgres/refresh_token_repo.go:46-94 | Tokens with one root lie on one path, one an ancestor of the other; only the last can be live and one user owns them all. |
| RefreshTheorems.OneLiveTokenPerChain | internal/repo/postgres/refresh_token_repo.go:46-94 | One login or registration never has two usable refresh tokens. |
| RefreshTheorems.RootIsFirst | internal/repo/postgres/refresh_token_repo.go:20-94 | Every token descends from one login or registration token of the same user. |
| RefreshTheorems.ReplaceConserves | internal/repo/postgres/refresh_token_repo.go:46-94 | A rotation leaves every user's number of live tokens unchanged. |
| RefreshTheorems.StepConserves | internal/repo/postgres/refresh_token_repo.go:20-128 | One step changes a user's number of live tokens by the logins and registrations minus the revocations it makes. |
| RefreshTheorems.LiveSessionsAreConserved | internal/usecase/auth_usecase.go:173-391 | Over every run a user's live tokens are logins plus registrations minus revocations. |
| RefreshTheorems.LogoutAllIsFinal | internal/usecase/auth_usecase.go:331-338 | After logging out everywhere, no chain the user started before is live again, even through a refresh that had read its row before. |
| RegistrationTheorems.CompletionsAreVerified | internal/usecase/auth_usecase.go:173-177 | Every registration in flight rests on a verified code of its own phone number, although the number was normalised once more. |
| RegistrationTheorems.UsersAreVerified | internal/usecase/auth_usecase.go:136-215 | Every user's phone number has an OTP row marked used whose code some caller presented and whose register token was handed out for it. |
| RegistrationTheorems.OneUserPerPhone | internal/repo/postgres/registration_repo.go:22-65 | However many register tokens exist, no phone number ever has two users. |
| RegistrationTheorems.UserComesWithToken | internal/repo/postgres/registration_repo.go:22-65 | The step that inserts a user inserts exactly that user and one live first token of theirs. |
| RegistrationTheorems.OtpBounds | internal/usecase/auth_usecase.go:136-163 | If at most n verifications of an OTP row overlap, attempts stay within maximum + n - 1 and at most n succeed. |
| AuthEffects.RequestEffect | internal/usecase/auth_usecase.go:72-114 | A requested code is a fresh row for the canonical number with five attempts and five minutes. |
| AuthEffects.LoginEffect | internal/usecase/auth_usecase.go:362-391 | A login adds one token, live for thirty days, for an existing user. |
| AuthEffects.LogoutEffect | internal/repo/postgres/refresh_token_repo.go:96-117 | A logout revokes exactly that token, now, if it was not revoked. |
| AuthEffects.LogoutAllEffect | internal/repo/postgres/refresh_token_repo.go:119-128 | Revokes exactly the user's unrevoked tokens, now, and leaves every other field and row. |
| AuthEffects.VerifyStarts | internal/usecase/auth_usecase.go:116-126 | A verification starts exactly with a number that normalises and a six-digit code. |
| AuthEffects.VerifyWithoutCode | internal/usecase/auth_usecase.go:128-139 | An undisturbed verification of a number with a user, or without a code, is refused so. |
| AuthEffects.VerifyAgainstCode | internal/usecase/auth_usecase.go:136-163 | An undisturbed verification against a newest row: used, late, out of attempts, wrong (one attempt more, nothing else), or right (the row is used now, nothing else), in this order. |
| AuthEffects.VanishedCode | internal/usecase/auth_usecase.go:149-163 | Where the verdict meets no row, nothing is written and the answer is not found. |
| AuthEffects.CompleteStarts | internal/usecase/auth_usecase.go:173-182 | A registration starts exactly with a handed-out register token, a name and a password of eight characters, and is for the token's number. |
| AuthEffects.RegistrationCompletes | internal/usecase/auth_usecase.go:184-215 | An undisturbed registration is refused exactly if the number has a user or a generated key is taken; otherwise the user with the trimmed name and hashed password and one token, live for thirty days, are stored. |
| AuthEffects.RefreshStarts | internal/usecase/auth_usecase.go:259-263 | A refresh starts exactly with a token that is not blank. |
| AuthEffects.RefreshCompletes | internal/usecase/auth_usecase.go:265-303 | An undisturbed refresh: unknown, revoked or past its expiry are refused without a change; otherwise the token is revoked now and the next one, live for thirty days, is stored for the same user. |
| AuthAnswers.RefreshAnswersAreExplained | internal/usecase/auth_usecase.go:259-315 | Every answer of every refresh in every run is explained by the tables and clock at the call's own moments. |
| AuthAnswers.RotationsAreInTime | internal/usecase/auth_usecase.go:273-278 | A token is only ever replaced by a call that read it unrevoked and then a clock not past its expiry. |
| AuthAnswers.VerifyAnswersAreExplained | internal/usecase/auth_usecase.go:116-163 | The same for every verification: success needs a newest row that was read unused with attempts left and in time and whose code was presented; every refusal names what was seen. |
| AuthAnswers.CompleteAnswersAreExplained | internal/usecase/auth_usecase.go:184-215 | The same for every registration: it succeeds only while the number has no user, and is refused as existing only when the number or the drawn id has one. |
| AuthAnswers.OwnMomentsHappened | internal/usecase/auth_usecase.go:116-315 | A call's moments are states of the run at that call's own steps. |
| Phone.CanonicalMeans | internal/usecase/auth_usecase.go:40-40 | Canonical numbers are nine to fifteen digits with or without a plus before them. |
| Phone.StripDropsSeparators | internal/usecase/auth_usecase.go:395-395 | Stripping drops blanks, hyphens, dots and parentheses wherever they are, and nothing else. |
| Phone.NormalizeIgnoresOuterSpace | internal/usecase/auth_usecase.go:394-394 | White space around a number does not matter. |
| Phone.OtpCodeMeans | internal/usecase/auth_usecase.go:427-439 | A valid code is six digits. |
| OtpTightness.AttemptsReachTheBound | internal/repo/postgres/auth_otp_repo.go:51-72 | For every n there is a run with that overlap whose attempts are maximum + n - 1. |
| OtpTightness.WinnersReachTheBound | internal/repo/postgres/auth_otp_repo.go:74-95 | For every n there is a run with that overlap in which n calls succeed with one code. |
| AuthInvariant.InvAlways | internal/usecase/auth_usecase.go:72-391 | The invariant over account tables, calls in flight and token history holds after every run. |
| AuthMachine.CallsFollowTheirMoments | internal/usecase/auth_usecase.go:116-315 | A verification, registration or refresh of any interleaved run is exactly where its own statements, at the moments the run gave it, have brought it. |
| AuthTables.LatestExists | internal/repo/postgres/auth_otp_repo.go:39-49 | The query for the newest code has a row to return whenever the number has any. |
| Phone.NormalizeIdempotent | internal/usecase/auth_usecase.go:393-402 | Normalising accepts exactly the canonical numbers unchanged, and normalising again changes nothing. |
| AuthStore.AuthOTPRepository.Create | internal/repo/postgres/auth_otp_repo.go:20-37 | Inserts the row, or nothing if the id exists. |
| AuthStore.AuthOTPRepository.FindLatest | internal/repo/postgres/auth_otp_repo.go:39-49 | A row of the number that no other row of it is newer than, and none exactly if it has none. |
| AuthStore.AuthOTPRepository.IncrementAttempt | internal/repo/postgres/auth_otp_repo.go:51-72 | Adds one to that row's attempts and changes nothing else. |
| AuthStore.AuthOTPRepository.MarkUsed | internal/repo/postgres/auth_otp_repo.go:74-95 | Marks that row used and changes nothing else. |
| AuthStore.RegistrationRepository.CompleteRegister | internal/repo/postgres/registration_repo.go:22-65 | User and first refresh token together, or neither. |
| AuthStore.RefreshTokenRepository.Create | internal/repo/postgres/refresh_token_repo.go:20-34 | Inserts the token exactly if its hash is new and its user exists. |
| AuthStore.RefreshTokenRepository.Replace | internal/repo/postgres/refresh_token_repo.go:46-94 | Revokes the current token and inserts the next, or changes nothing: if the current one is not live or the insertion fails. |
| AuthStore.RefreshTokenRepository.RevokeByHash | internal/repo/postgres/refresh_token_repo.go:96-117 | Revokes the token exactly if it is live. |
| AuthUseCase.AuthUseCase.RequestRegisterOTP | internal/usecase/auth_usecase.go:72-114 | Under interference, a fresh unused row with no attempts for the canonical number unless a user had it when looked up. |
| AuthUseCase.AuthUseCase.VerifyRegisterOTP | internal/usecase/auth_usecase.go:116-171 | Against arbitrary interference, takes exactly the machine's steps and returns within four of them. |
| AuthUseCase.AuthUseCase.CheckLatest | internal/usecase/auth_usecase.go:136-170 | The same for the part after the user lookup. |
| AuthUseCase.AuthUseCase.CompleteRegister | internal/usecase/auth_usecase.go:173-215 | Against arbitrary interference, takes exactly the machine's two steps. |
| AuthUseCase.AuthUseCase.Refresh | internal/usecase/auth_usecase.go:259-315 | Against arbitrary interference, takes exactly the machine's steps and returns within four of them. |
| AuthUseCase.AuthUseCase.Logout | internal/usecase/auth_usecase.go:317-329 | Revokes the token if live, and reports an invalid token exactly if it was not. |
| AuthUseCase.AuthUseCase.LogoutAll | internal/usecase/auth_usecase.go:331-338 | Revokes exactly the user's live tokens. |
| AuthUseCase.AuthUseCase.IssueSession | internal/usecase/auth_usecase.go:362-391 | Adds one live token for an existing user, or nothing. |
| MqttCodec.EncodeLengthDigits | internal/mqtt/subscriber.go:249-262 | The encoding has at most k digits exactly for values below 128 to the power k: it is minimal. |
| MqttCodec.EncodeLengthSize | internal/mqtt/subscriber.go:249-262 | One to four bytes exactly for values up to 268435455 (section 2.2.3 of MQTT Version 3.1.1). |
| MqttCodec.LengthRoundTrip | internal/mqtt/subscriber.go:249-280 | Decoding inverts encoding before any suffix, consuming exactly those bytes, and rejects the encoding of every larger value. |
| MqttCodec.AcceptedLengths | internal/mqtt/subscriber.go:264-280 | Whatever is accepted is within the bound, consumes one to four bytes and is never shorter than its re-encoding. |
| MqttCodec.PacketRoundTrip | internal/mqtt/subscriber.go:220-247 | A written packet is read back before any suffix exactly if its payload is within the bound, and is malformed otherwise. |
| MqttCodec.StreamRoundTrip | internal/mqtt/subscriber.go:220-247 | Reading a stream that starts with any written packets yields exactly those and then what the rest yields. |
| MqttCodec.FramingIsUnique | internal/mqtt/subscriber.go:220-247 | A list of packets is read back with no bytes left, so no two lists share a byte stream. |
| MqttCodec.ParsePublishIsExact | internal/mqtt/subscriber.go:194-218 | Parsing succeeds exactly on payloads that are length, topic, packet id, message, and yields that partition (section 3.3). |
| MqttCodec.PublishRoundTrip | internal/mqtt/publisher.go:96-104 | The reader recovers what the publisher built exactly for topics of at most 65535 bytes. |
| MqttCodec.ConnectIsUnderstood | internal/mqtt/subscriber.go:96-119 | A receiver following section 3.1 recovers client id and credentials exactly if each fits its prefix and no password comes without a user name. |
| MqttWire.EncodedDigits | internal/mqtt/subscriber.go:249-262 | The encoded length is the number in base 128, ones first, with the top bit on every digit but the last. |
| MqttWire.PacketBytes | internal/mqtt/subscriber.go:220-228 | The first byte is sixteen times the type plus the flags, and the payload ends the packet. |
| MqttWire.PubackBytes | internal/mqtt/subscriber.go:187-187 | An acknowledgement is 0x40, 2 and the packet id. |
| MqttWire.AcceptedPuback | internal/mqtt/publisher.go:111-111 | The publisher accepts exactly type 4 with payload 0, 1. |
| MqttWire.PublishBytes | internal/mqtt/publisher.go:97-102 | The PUBLISH sent begins with 0x32 and holds topic length, topic, 0, 1, message. |
| MqttWire.PublishFlags | internal/mqtt/subscriber.go:206-215 | For all duplicate, quality-of-service and retain bits, the packet id is read exactly if the quality of service is above zero. |
| MqttWire.MessagesAreOfTypeThree | internal/mqtt/subscriber.go:172-180 | A packet is handled as a message exactly if its type is 3 and its payload has the PUBLISH layout. |
| MqttWire.HandlerErrorsAreKept | internal/mqtt/subscriber.go:182-184 | What is noted about the handler is what it reported for that message. |
| MqttWire.ConnectBytes | internal/mqtt/subscriber.go:96-119 | The CONNECT bytes: name, level 4, the flags by bit, no keep alive, then each field after its length. |
| MqttWire.TrimBytesCuts | internal/mqtt/subscriber.go:91-91 | Trimming the client id cuts white space off both ends and nothing else. |
| MqttWire.ClientIdIs | internal/mqtt/subscriber.go:91-94 | The generated id is sent exactly if the configured one is all white space. |
| MqttSession.ServeIsComplete | internal/mqtt/subscriber.go:162-192 | While writes succeed, the handler sees every well-formed PUBLISH once in arrival order and exactly the ids of those above quality of service zero are acknowledged in that order, whether or not the handler fails (sections 4.3.2 and 4.6). |
| MqttSession.ServeIsAPrefix | internal/mqtt/subscriber.go:162-192 | However many writes succeed, what is handled and acknowledged is a prefix of that. |
| MqttSession.AcksFollowTheirMessages | internal/mqtt/subscriber.go:182-190 | Every acknowledgement comes right after the handler returned from the message with that id. |
| MqttSession.LoopSeesThePackets | internal/mqtt/subscriber.go:162-247 | On the bytes of any packet list the loop handles and acknowledges what the list demands, and the bytes it writes are read back as exactly those acknowledgements, in order, with none left. |
| MqttSession.PublishAndAcknowledge | internal/mqtt/publisher.go:96-117 | A published message reaches the handler unchanged and the subscriber's answer passes the publisher's check. |
| MqttSession.EncodeRemainingLength | internal/mqtt/subscriber.go:249-262 | The loop computes the base-128 encoding. |
| MqttSession.ReadRemainingLength | internal/mqtt/subscriber.go:264-280 | The loop reads what the decoding function says, with the same errors, consuming the same bytes. |
| MqttSession.WritePacket | internal/mqtt/subscriber.go:220-228 | Appends the encoded packet, or only its header when the second write fails. |
| MqttSession.ReadPacket | internal/mqtt/subscriber.go:230-247 | Reads one packet off the stream or fails as truncated or malformed. |
| MqttSession.ParsePublishPayload | internal/mqtt/subscriber.go:194-218 | Stays in bounds on every input and agrees with the parsing function. |
| MqttSession.ReadLoop | internal/mqtt/subscriber.go:162-192 | Until the connection fails, the loop's events and bytes written are those of the packets the stream decodes to. |
| MqttSession.ServePacket | internal/mqtt/subscriber.go:172-190 | One round of the loop. |
| MqttSession.WriteUtf | internal/mqtt/subscriber.go:282-285 | Appends the 16-bit length and the bytes. |
| MqttSession.PublishQoS1 | internal/mqtt/publisher.go:96-117 | Sends the PUBLISH and succeeds exactly if the next packet acknowledges id 1. |
| MqttSession.BuildConnect | internal/mqtt/subscriber.go:96-119 | Builds the CONNECT variable header and payload. |
| MqttSession.SendConnect | internal/mqtt/subscriber.go:90-136 | Sends CONNECT with the trimmed client id, or the generated one if it is blank, and succeeds exactly on a CONNACK with return code zero. |
| Alerts.FindRecentMeans | internal/repo/postgres/alert_repo.go:69-82 | The query returns a newest alert of the agent and type not older than the bound, and none exactly if there is none. |
| Alerts.SavingKeepsSpaced | internal/usecase/alert_usecase.go:69-87 | If the stored alerts of one agent and type are in increasing order and more than five seconds apart, a save keeps them so if and only if the query at that moment finds nothing. |
| Alerts.SpacedSpan | internal/usecase/alert_usecase.go:15-76 | p spaced alerts within an interval need it to span p - 1 gaps. |
| AlertMachine.HistoryIsAFilter | internal/usecase/alert_usecase.go:52-87 | In every run, however deliveries interleave with each other and with agents coming and going, querying the whole history decides as a filter does that remembers only the largest saved time per agent and type. |
| AlertMachine.QueryIsFilter | internal/usecase/alert_usecase.go:69-76 | The query finds nothing exactly when that filter accepts. |
| AlertMachine.RedeliveryIsHarmless | internal/usecase/alert_usecase.go:45-113 | Once a timestamped message got past look-up and de-duplication, no delivery of it that queries later stores an alert, in any interleaving and even across the agent's deletion: each of its steps leaves agents and alerts as they are. |
| AlertMachine.CallsFollowTheirMoments | internal/usecase/alert_usecase.go:45-87 | A delivery of any interleaved run is exactly where its own statements, at the moments the run gave it, have brought it. |
| AlertEffects.DeliveryStarts | internal/usecase/alert_usecase.go:46-50 | A delivery starts exactly if neither its agent id nor its type is blank. |
| AlertEffects.DeliveryAlone | internal/usecase/alert_usecase.go:52-87 | An undisturbed delivery: an unknown or ownerless agent, a duplicate exactly if an alert of the agent and type is at most five seconds older, or one more row with the message's time if it has one. |
| AlertEffects.RemovalEffect | internal/database/migrations/00001_init_schema.sql:28-33 | Removing an agent takes exactly its alerts with it. |
| AlertEffects.AlertTypes | internal/usecase/alert_usecase.go:172-183 | Which spellings become which alert type; every other type is only trimmed and put in small letters. |
| AlertEffects.NormalizingTwice | internal/usecase/alert_usecase.go:172-183 | A normalised type is its own normal form. |
| AlertOverlap.AlertsFallIntoClasses | internal/usecase/alert_usecase.go:69-87 | In every run in which at most n deliveries of one agent and type are between query and save at any time, its stored alerts fall into at most n classes, each in increasing order and more than five seconds apart. |
| AlertOverlap.SpacedWithoutOverlap | internal/usecase/alert_usecase.go:69-87 | With n = 1 all stored alerts of the agent and type are so spaced, and the last saved time is the one the filter remembers. |
| AlertOverlap.AlertDensity | internal/usecase/alert_usecase.go:15-87 | In such a run m alerts of one agent and type within [a, b] need (m / n rounded up, - 1) gaps of more than five seconds to fit into b - a. |
| AlertTightness.DensityIsReached | internal/usecase/alert_usecase.go:69-87 | For every n and r a run with that overlap stores n times r alerts of one agent and type within exactly r - 1 gaps; with r = 1, n alerts of one time. |
| AlertUseCase.AlertRepository.FindRecentByAgentAndType | internal/repo/postgres/alert_repo.go:69-82 | Computes the query over the stored history. |
| AlertUseCase.AlertUseCase.Store | internal/usecase/alert_usecase.go:46-87 | Against arbitrary interference between look-up, query and save, takes exactly the machine's steps; a duplicate answers with a newest stored alert in the window. |
| AlertUseCase.AlertUseCase.CreateAlertFromAgent | internal/usecase/alert_usecase.go:45-113 | The same; and after a save the device table it meets loses exactly the owner's tokens whose answer spells unregistered and whose deletion succeeds, and an error is reported exactly if there is other trouble. |
| AlertUseCase.AlertUseCase.Notify | internal/usecase/alert_usecase.go:89-110 | The notification part of that, on a device table no other call changes meanwhile. |
| AlertUseCase.RemovedAreDead | internal/usecase/alert_usecase.go:115-143 | The tokens removed by fan-out and clean-up are exactly the owner's dead ones in the table. |
| AlertUseCase.TroubleIsReported | internal/usecase/alert_usecase.go:145-153 | Failures other than dead tokens remain exactly if some device of the owner had one. |
| Devices.UpsertMeaning | internal/repo/postgres/mobile_device_repo.go:49-88 | After a registration the user's only row for the platform holds the token, nobody else has it, and every unrelated row is untouched. |
| Devices.UpsertKeepsTable | internal/repo/postgres/mobile_device_repo.go:49-88 | Insert-or-move with its clean-up keeps tokens unique and trimmed and one row per user and platform. |
| Devices.TableStaysOk | internal/usecase/pairing_usecase.go:306-320 | Every run of registrations and clean-ups keeps that. |
| Devices.RemovalCounts | internal/repo/postgres/mobile_device_repo.go:90-98 | Removing present tokens removes exactly one row for each. |
| Devices.InvalidIsUnregistered | internal/notification/fcm_sender.go:178-185 | A failure counts as a dead token exactly if the push service rejected it with the twelve letters of unregistered, each capital or small. |
| Devices.FailuresMean | internal/notification/fcm_sender.go:89-105 | The failures are those of the devices with a token whose message was not delivered, in their order, each once, and invalid exactly if unregistered. |
| Devices.AddressedMeans | internal/notification/fcm_sender.go:89-94 | Exactly the devices with a token are targeted. |
| Devices.CleanupIsConservative | internal/usecase/alert_usecase.go:115-143 | Only tokens whose answer spells unregistered go, each with exactly one row, and the count reported is the number of rows gone. |
| Devices.MobileDeviceRepository.Upsert | internal/repo/postgres/mobile_device_repo.go:49-88 | One transaction with the effect of insert-or-move and clean-up, returning the stored row. |
| Devices.MobileDeviceRepository.FindByUserID | internal/repo/postgres/mobile_device_repo.go:20-47 | Every row of the user once and nothing else. |
| Devices.MobileDeviceRepository.Register | internal/usecase/pairing_usecase.go:306-320 | Rejects blank fields, otherwise stores the trimmed ones and keeps the table's keys. |
| Devices.SendAlert | internal/notification/fcm_sender.go:81-108 | Targeted is sent plus failed and counts the devices with a token; an error exactly if something failed or there is no access. |
| Devices.CleanupInvalidNotificationTokens | internal/usecase/alert_usecase.go:115-143 | Removes exactly the dead tokens whose deletion succeeded, counts them, and passes the other failures on in order. |

## Left out

- AlertMachine.RedeliveryIsHarmless: for messages with a timestamp of their own, because others take the time of delivery; a delivery whose query comes before the first one's save is covered by AlertOverlap instead.
- AlertUseCase.AlertUseCase.Notify: listing the devices, sending and deleting run with no other call between them, so a device registered meanwhile is not modelled.
- AlertUseCase.AlertUseCase.CreateAlertFromAgent: the same for its notification part.
- AuthUseCase.AuthUseCase.IssueSession: stands for the tail of a login; the phone lookup and the password comparison before it are not modelled, so in the machine any existing user may log in at any time.
- MqttSession.LoopSeesThePackets: assumes that enough writes succeed; MqttSession.ServeIsAPrefix says what holds otherwise.
- Ids are compared as text. PostgreSQL compares UUIDs, so an id written in another letter case finds its row there and not in the model; an id that is no UUID is an error there and merely unknown here.
- HTTP routing, JSON, authentication middleware and the mapping of errors to status codes.
- TCP dialling, reconnecting, deadlines, context cancellation, the subscription handshake and how client ids are generated.
- The push service's protocol, its access tokens, and the texts of notifications and alerts.
- bcrypt's length limit, random generation, base64 and JWT encoding, and the expiry of access and register tokens.
- Database errors other than constraint violations, column widths, rounding of timestamps to microseconds, and isolation anomalies.
- Deletion of users, which no use case performs, and with it the cascades from `users`.
- E-mail addresses, list endpoints and their ordering, repository methods that no use case calls, configuration and logging.
- The configurable life time of refresh tokens: the default of thirty days is used.
- Purposes of one-time codes: registration is the only one.
- Unicode white space and letter case: text operations are those on ASCII.
- Which of several stored alerts with the same newest time a duplicate is answered with.
