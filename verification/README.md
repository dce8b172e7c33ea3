# wol-unlock: a model of the service core and its wire formats

wol-unlock lets a paired phone wake and unlock a PC. The PC runs a service that enrolls phones during
a short pairing window, admits signed requests, and signs every answer. This project models the
stateful core of that service, the texts and encodings it shares with the phone, and the phone's half
of the exchange, and proves what they promise over all inputs and all runs.

Parts of the program that change state step by step are classes whose methods are proved equal to
step functions on values. Runs are sequences of those steps in any order, and the theorems are about
runs: each stretch of code between two suspension points is one step, so interleavings of handlers,
timers, sweeps and operator commands are all covered. A log kept beside the state records what
happened, and most theorems say what the log of any run can look like.

| files | what they hold |
|---|---|
| `Service*.dfy`, `Throttle.dfy` | the whole service: pairing and admission over one store, through restarts; the same with its rate limiter |
| `Pairing*.dfy`, `Status.dfy` | the pairing window: steps, invariants, theorems, answers, timers, the honest phone, the object, the status answer |
| `Admission*.dfy`, `Middleware.dfy`, `Refusals.dfy`, `Auth.dfy`, `Store.dfy` | admission of signed requests, which error each refused one gets, and the tables they use |
| `RateLimit.dfy`, `RateBudget.dfy` | the token buckets and their bounded table |
| `Base64Url.dfy`, `Base64Guards.dfy`, `Canonical.dfy`, `Unicode.dfy`, `Json*.dfy`, `PercentCoding.dfy`, `PairingCode.dfy`, `Ticket*.dfy` | encoders and parsers |
| `Exchange.dfy`, `Envelope.dfy`, `Crypto.dfy` | the phone's half of the exchange and what it makes of an answer; signatures and digests |
| `Session.dfy`, `ControlClient.dfy`, `WidgetBridge.dfy` | session unlocking, control connection, widget publishing |
| `Prelude.dfy`, `Text.dfy` | shared types and string primitives |

## What is assumed

- Ed25519 and SHA-256 are arbitrary functions of which only lengths, and that an honest signature
  verifies, are known (`Crypto.Sound`).
- Base64 of the Python and Swift libraries is an arbitrary decoder that is right on the output of the
  encoder; which other texts it accepts is left open (`Base64Guards`).
- Each store method is one atomic update of maps. Store failures are inputs: an insertion may raise, and
  so may the audit row that follows it.
- The limiter and the pairing deadlines use a monotonic clock over the reals; wall-clock seconds of a
  run do not decrease.
- Device names are any sequence of code points, lone surrogates included; the phone's JSON writer passes
  half a pair on as an escape, as ECMAScript 2019 prescribes, and SQLite refuses to store it.
- The phone reads bodies as UTF-8 by an arbitrary reader that is right on what UTF-8 writes; it may drop a
  byte-order mark and replace what is malformed (`Exchange.ReadsUtf8`). Numbers in answers are
  integers that JavaScript reads exactly. Its clock is within the range of JavaScript dates.
- Header values, typed codes, platform texts and session ids are ASCII, where the Python and the TypeScript character
  classes agree.

## Where the code and its documentation differ

The model follows the code.

- `docs/PROTOCOL.md` section 9 calls the pairing code single-use. With approval required, a window
  enrolls at most one device in every run. Without it, a failure of the audit row after the device row
  was written leaves the window open, and the same code enrolls again: `OnePerWindowExactly`.
- Section 9 shows every window ending by itself. With approval required, a store failure after the
  operator's yes leaves the manager awaiting an approval nobody waits for, until it is cancelled:
  `StrandedAfter`, `StrandsExactly`. No fault of the database is needed: it raises for every device name
  with a lone surrogate. `DrainsSurelyExactly` says from which states the timers close the window.
- Section 9 has no step from one window to another. A submission that goes on acts on whatever window is
  open by then: one that was approved is stored although its window was cancelled, and closes the window
  opened since: `ForeignEnded`, `EndsForeignExactly`, `ForeignExactly`.
- `pc-service/src/wol_unlock/crypto/verify.py` says that anything malformed is a bad request. A number of
  more than 4300 digits makes Python's `int` raise and is answered as an internal error:
  `ParseAuthHeaders`.
- `pc-service/src/wol_unlock/http/middleware.py` says that nothing may escape unsigned. The payload is
  rendered and encoded outside the exception handler, so an answer that holds a lone surrogate leaves
  unsigned, and the phone refuses it: `SignedExactly`, `ResponseAccepted`. A device that waits for approval
  under such a name puts it into every status answer: `StatusSignedExactly`, `SurrogateSilences`. An honest
  phone can come by one, because it cuts its name by code units: `PhoneNameEncodable`.
- Section 3.2 keeps nonces for twice the skew so that no request becomes valid a second time. The clock
  is read before the body arrives, so a body that stalls until a sweep has dropped the first row is admitted again, and so is a
  request repeated in the last tick of its window, or across a deletion of its device:
  `AdmittedAtMostOnce` names all the reasons, `TickIsTight`, `StallIsTight`, `DeletionIsTight` and
  `RepairingIsTight` show that they are real.
- Section 3.2 lists the limiter first and the nonce before the signature. The code asks the limiter
  after the device lookup and spends the nonce after the signature has verified.
- The phone signs the payload of every call but sends it only with POST: `MessageRebuilt` and
  `RebuiltWhenSent` say exactly when the service rebuilds what was signed.
- The limiter's table is bounded by `max_keys` exactly when `max_keys` is at least two:
  `TableBoundedExactly`.
- Section 6 gives the session id pattern; Python's `$` also lets one trailing line feed through
  (`ValidId`). The code also takes `mir` sessions for graphical.
- The widget mirror loses no update exactly while at most one mirror runs: `NothingLostExactly`. The app
  starts one.
- The mirror is meant to skip what the widgets have seen already. What it compares holds the second of
  its making, so unchanged content is skipped in the same second only: `SkipsExactly`, `RewritesExactly`,
  `UnchangedRewritten`.

## Model

| member | source | states |
|---|---|---|
| ServiceTheorems.AdmittedWasEnrolled | pc-service/src/wol_unlock/http/middleware.py:236-294 | In every run of the whole service, restarts included, an admitted request is of a device paired before its lookup and not revoked or deleted in between, and that pairing is the enrollment of a submission that was matched in its window in time, proved by its key, and approved where approval is required |
| ServiceTheorems.AdmittingKeyEnrolled | pc-service/src/wol_unlock/pairing.py:366-386 | The key an admitted request is verified with was itself enrolled by such a submission, and signed that request with that body |
| ServiceHonest.HonestPairs | pc-service/src/wol_unlock/pairing.py:189-396 | From every reachable idle service, opening a window, an honest submission under any spelling of the code and, where required, one yes lead to a reachable state in which exactly that phone's enrollment was stored, with its name, platform and time in its row, the window is closed and the device is active; the last step answers the phone with that enrollment |
| ServiceHonest.PairedCallsDecided | mobile/src/api/client.ts:146-195 | In every state of every run after that pairing, restarts included, in which the device was not revoked or deleted, an honest call is admitted exactly when it is short enough, fresh, within its rate and not repeated |
| ServiceHonest.StaysListed | pc-service/src/wol_unlock/store.py:186-262 | A listed device stays active under the same key through every run that neither revokes nor deletes it |
| Throttle.DeviceBudget | pc-service/src/wol_unlock/http/middleware.py:257-261 | Over any interval of any run of the service, the requests of one device that arrive in it and are admitted are at most a burst plus the refill, and a burst more for each forced eviction of its bucket and each restart |
| Throttle.LookupsBalance | pc-service/src/wol_unlock/ratelimit.py:26-62 | The requests of a device that pass the gate and the tokens left to it never exceed the tokens it had, the refill and the full buckets handed out |
| Service.StepKeeps | pc-service/src/wol_unlock/service.py:96-131 | Every step keeps: pairings in the admission log and stored devices in the pairing logs correspond one to one, in the same order, and every key in the device table or in use by a request in flight was enrolled |
| PairingTheorems.EnrollmentTraced | pc-service/src/wol_unlock/pairing.py:262-386 | In every run, every stored device goes back to the single opening of its window, a match of that window's code before its deadline, at most 600 seconds after the opening, with a proof verifying over code, key and server, and (with approval on) an accepted approval of that very submission in between |
| PairingTheorems.OneEnrollmentPerWindow | pc-service/src/wol_unlock/pairing.py:232-242 | No window stores two devices in any run with approval on, nor in any run without a failed audit row |
| PairingHonest.OnePerWindowExactly | pc-service/src/wol_unlock/pairing.py:346-386 | Every run stores at most one device per window if and only if approval is required |
| PairingHonest.TwiceEnrolled | pc-service/src/wol_unlock/pairing.py:346-382 | Without approval there is a reachable state in which one window stored two devices |
| PairingHonest.HonestSubmissionMatches | mobile/src/api/client.ts:265-289 | What an honest phone sends for any spelling of the window's code, in time, passes every check of the submission |
| PairingTheorems.PhaseIsState | pc-service/src/wol_unlock/pairing.py:189-242 | In every reachable state phase, window, pending submission and expiry task agree; attempts left plus wrong codes counted is the maximum, at least one is left; an undecided waiting submission is the pending one |
| PairingTheorems.CompletedOnce | pc-service/src/wol_unlock/pairing.py:238-242 | A submission's decision is completed at most once in a run, and was completed exactly when it now holds an answer |
| PairingTheorems.DecisionsStick | pc-service/src/wol_unlock/pairing.py:388-396 | No step changes a decision that was made or given up |
| PairingTheorems.EventsTellState | pc-service/src/wol_unlock/pairing.py:154-169 | Folding opened and closed events gives whether a window is open, and every completed event is directly followed by the closing as paired |
| PairingTheorems.ApprovalWaits | pc-service/src/wol_unlock/pairing.py:349-359 | In reachable states the timer of a waiting submission fires no earlier than the approval timeout after its match |
| PairingLog.LogTellsActions | pc-service/src/wol_unlock/pairing.py:189-402 | A step only adds to the log what its action explains: openings by begin, matches by the very submission, answers by the operator for the pending submission, enrollments by a submission that was approved or needs no approval; a completed pairing is announced for a device stored with it |
| PairingLog.WindowCloses | pc-service/src/wol_unlock/pairing.py:244-258 | A window ends only by the operator, its time while merely open, its last attempt, the right code, or a resumed submission; expiry never ends one that awaits approval |
| PairingDrain.TimersDrain | pc-service/src/wol_unlock/pairing.py:244-258 | With a store that raises only for names it cannot hold, runs of timer steps alone are bounded in length from every reachable state, and one that cannot be prolonged ends idle unless it began doomed |
| PairingDrain.DrainsSurelyExactly | pc-service/src/wol_unlock/pairing.py:349-364 | Every such run that cannot be prolonged ends idle if and only if the state is not doomed: approval awaited, and all who wait already approved under a name that cannot be stored |
| PairingDrain.DrainsExactly | pc-service/src/wol_unlock/pairing.py:349-364 | Some timer run closes the window if and only if the state is not stranded (approval awaited, nobody waiting) |
| PairingDrain.NeverDoomed | pc-service/src/wol_unlock/pairing.py:349-386 | While no store call has failed, no handler was cancelled and all names can be stored, no reachable state is doomed |
| PairingHonest.StrandedAfter | pc-service/src/wol_unlock/pairing.py:361-374 | With approval on, a full run from the start ends stranded, for any store failure, and for a working store when the name holds a lone surrogate |
| PairingHonest.StrandsExactly | pc-service/src/wol_unlock/pairing.py:349-374 | Some run strands the window if and only if approval is required |
| Status.StatusSignedExactly | pc-service/src/wol_unlock/pairing.py:171-185 | A status answer is signed if and only if no device with a lone surrogate in its name is pending |
| Status.SurrogateSilences | pc-service/src/wol_unlock/http/handlers.py:111-120 | There is a reachable state that is stranded and whose status answers are all unsigned although the store failed for nothing but a name it cannot hold |
| Status.PendingKnown | pc-service/src/wol_unlock/pairing.py:171-185 | In reachable states the snapshot reports a pending device exactly while approval is awaited |
| Status.SnapshotTells | pc-service/src/wol_unlock/pairing.py:171-185 | The phone reads from the snapshot of a reachable state what its history says: active as the events tell, idle, open or awaiting approval, the maximum of attempts less the wrong codes counted, and a pending device exactly when one is |
| Status.PhoneNameEncodable | mobile/src/actions/pair.ts:80-85 | Cutting a well-formed phone name leaves a lone surrogate exactly when the cut goes through a pair |
| Unicode.CleanNameTidy | pc-service/src/wol_unlock/pairing.py:408-410 | A listed name has 1 to 64 characters and no white space but single spaces |
| Unicode.CleanNameWords | pc-service/src/wol_unlock/pairing.py:408-410 | A listed name is the first 64 characters of the given name's words one space apart, or the stock name if there are none |
| PairingLog.FinishedInHalves | pc-service/src/wol_unlock/pairing.py:366-386 | Finishing is writing the device row and then, by what the audit row comes to, announcing and closing or failing |
| PairingLog.BetweenHalves | pc-service/src/wol_unlock/pairing.py:366-386 | A timer or cancelled handler that comes between the two store calls of finishing comes to the same before them |
| Service.ServedBetween | pc-service/src/wol_unlock/pairing.py:366-386 | A request, sweep, revocation or deletion that comes between the two store calls comes to the same after them |
| PairingLog.StoresOnce | pc-service/src/wol_unlock/pairing.py:366-374 | A step stores at most one device |
| PairingForeign.ForeignEnded | pc-service/src/wol_unlock/pairing.py:353-364 | There is a run in which an approved submission is stored after its window was cancelled, and closes the window opened since |
| PairingForeign.EndsForeignExactly | pc-service/src/wol_unlock/pairing.py:353-364 | In reachable states a submission that goes on ends a window of others exactly when one is open, its own is not the latest, and it does not fail |
| PairingForeign.ForeignExactly | pc-service/src/wol_unlock/pairing.py:353-364 | Some run has a submission end a window of others if and only if approval is required |
| PairingProofs.StepKeeps | pc-service/src/wol_unlock/pairing.py:189-402 | Every step of begin, cancel, submit, resolve, timeout, resume, expiry and shutdown keeps the whole invariant |
| PairingProofs.RefusalCases | pc-service/src/wol_unlock/pairing.py:290-339 | A refused submission leaves everything, closes a window past its time, counts one wrong code and closes at the last attempt, or closes for a bad proof under the right code |
| PairingAnswers.SubmitAnswers | pc-service/src/wol_unlock/pairing.py:262-351 | Which answer a submission gets, over its fields, the window and the clock: a bad request exactly for a key or proof that spells no bytes of its length, disabled, expired, invalid code and invalid signature exactly when theirs is the first check to fail; it waits exactly when all hold and approval is required, is answered with the enrollment exactly when the step stores it and neither the audit row nor anything else fails, and with an internal error exactly when its text cannot be framed or the store failed |
| PairingAnswers.ResumeAnswers | pc-service/src/wol_unlock/pairing.py:349-386 | On going on, a submission is told timeout exactly when its timer fired, denied exactly for a no in time, and its own enrollment exactly for a yes in time and a store that works, which is exactly when the step stores it cleanly |
| PairingAnswers.BeginAnswers | pc-service/src/wol_unlock/pairing.py:189-226 | A window opens exactly when none is and the requested seconds, the configured ones if none are named, are 15 to 600; its deadline is that many seconds ahead |
| PairingAnswers.ResolveAnswers | pc-service/src/wol_unlock/pairing.py:388-396 | In reachable states the operator's answer is accepted exactly when some submission waits undecided, and becomes the decision of the pending one |
| PairingAnswers.SubmitAnnounces | pc-service/src/wol_unlock/pairing.py:262-351 | A submission to an open window closes it, and announces the reason that goes with its answer, exactly when it comes too late, spends the last attempt, has a bad proof, or is stored; one that waits is announced as a request, and otherwise nothing is |
| PairingAnswers.ResumeAnnounces | pc-service/src/wol_unlock/pairing.py:349-386 | A submission that goes on closes the window with the reason that goes with its answer, unless storing it fails |
| PairingAnswers.RightCodeOnly | pc-service/src/wol_unlock/pairing.py:75-76 | Where the digest keeps the two framed texts apart, only the window's own code matches its hash |
| PairingManager.PairingManager.Begin | pc-service/src/wol_unlock/pairing.py:189-226 | The object's new state and answer are those of the step: a fresh window with its deadline, code hash and attempts, or a refusal that changes nothing |
| PairingManager.PairingManager.CloseLocked | pc-service/src/wol_unlock/pairing.py:232-242 | Window, pending submission and expiry task are gone, an undecided answer becomes a no, and the closing is announced |
| PairingManager.PairingManager.Expire | pc-service/src/wol_unlock/pairing.py:244-258 | Only a window that is merely open is closed as expired |
| PairingManager.PairingManager.Attempt | pc-service/src/wol_unlock/pairing.py:275-345 | The checks of a submission in order, with the new state of window and attempts for each refusal |
| PairingManager.PairingManager.Submit | pc-service/src/wol_unlock/pairing.py:262-351 | A submission up to its wait, or to its end when no approval is needed, with what the device table then holds and the answer of the step, which `SubmitAnswers` says |
| PairingManager.PairingManager.Resume | pc-service/src/wol_unlock/pairing.py:349-364 | A waiting submission after its answer or timeout: closed, denied or finished, with what the device table then holds and the answer of the step, which `ResumeAnswers` says |
| PairingManager.PairingManager.FinishLocked | pc-service/src/wol_unlock/pairing.py:366-386 | Device row, audit row, completed event and closing for each way the store can behave, and the answer of the step, which `SubmitAnswers` and `ResumeAnswers` tie to what was stored |
| PairingManager.PairingManager.Resolve | pc-service/src/wol_unlock/pairing.py:388-396 | The answer reaches the pending undecided submission or nothing, and the result says which |
| PairingManager.PairingManager.ApprovalTimer | pc-service/src/wol_unlock/pairing.py:353-359 | The timeout cancels an undecided answer and marks the submission |
| PairingManager.PairingManager.Abandon | pc-service/src/wol_unlock/pairing.py:353-356 | A cancelled handler leaves, and an undecided answer is cancelled with it |
| PairingManager.PairingManager.Shutdown | pc-service/src/wol_unlock/pairing.py:398-401 | An open window is closed, an idle manager is left alone |
| AdmissionTheorems.AdmittedAtMostOnce | pc-service/src/wol_unlock/http/middleware.py:236-294 | Two admissions of one device, nonce and timestamp in a run mean a deletion (after the second lookup, or before a new pairing that precedes it), or a sweep reaching the first row's expiry either during the second request's stall or before its lookup at exactly timestamp plus skew |
| AdmissionTheorems.AdmittedOnceWhenPrompt | pc-service/src/wol_unlock/store.py:264-288 | Without deletion and without a stall across such a sweep, a second admission happens only when sampled at timestamp plus skew, two skews after the first |
| AdmissionTheorems.TickIsTight | pc-service/src/wol_unlock/crypto/verify.py:98-105 | Any acceptable request can be admitted at both ends of its window with a sweep in the last tick |
| AdmissionTheorems.StallIsTight | pc-service/src/wol_unlock/http/middleware.py:263-290 | Any acceptable request can be admitted twice when its second body arrives after the sweep |
| AdmissionTheorems.DeletionIsTight | pc-service/src/wol_unlock/store.py:246-252 | Any acceptable request can be admitted twice when its device is deleted during its second body |
| AdmissionTheorems.RepairingIsTight | pc-service/src/wol_unlock/store.py:186-252 | Any acceptable request can be admitted twice when its device is deleted and paired again in between |
| AdmissionTheorems.NonceTableIsHistory | pc-service/src/wol_unlock/store.py:264-288 | After every run a nonce row is there, with its expiry, exactly when an admission in the log was not swept or deleted since |
| AdmissionTheorems.DeviceTableIsHistory | pc-service/src/wol_unlock/store.py:186-252 | After every run each row is keyed by its key's identifier, and a device is active exactly when its last enrollment was not revoked or deleted since |
| AdmissionTheorems.EnrollmentRaisesExactly | pc-service/src/wol_unlock/store.py:33-41 | The uniqueness constraint on public keys never fires in any run; an enrollment raises exactly for a name with a lone surrogate |
| AdmissionTheorems.AdmittedOnlyTrusted | pc-service/src/wol_unlock/http/middleware.py:249-262 | Every admission was fresh when sampled and its device was trusted at its lookup |
| AdmissionTheorems.AdmittedWasSigned | pc-service/src/wol_unlock/http/middleware.py:263-290 | Whatever is admitted after any run carries a signature by its device's key over a text that determines method, path, timestamp, nonce, that body, device and server, and its nonce was not in the table |
| AdmissionTheorems.RefusedLeavesTables | pc-service/src/wol_unlock/http/middleware.py:236-294 | A request step that admits nothing changes neither nonces nor devices |
| AdmissionTheorems.NoncesChangeOnAdmission | pc-service/src/wol_unlock/http/middleware.py:278-290 | A request step that changes the nonces adds exactly the row of the admission it logs |
| AdmissionTheorems.DevicesChangeOnVisit | pc-service/src/wol_unlock/store.py:254-262 | A request changes a device row only in its last visit, to the time an admission of that device was sampled |
| AdmissionProofs.StepKeeps | pc-service/src/wol_unlock/service.py:96-110 | Arrivals, bodies, visits, sweeps, revocations, deletions, enrollments and restarts keep the admission invariants |
| AdmissionProofs.GatePasses | pc-service/src/wol_unlock/http/middleware.py:238-266 | The checks before the body pass exactly under their conjunction |
| Refusals.DecidedExactly | pc-service/src/wol_unlock/http/middleware.py:236-294 | A request whose headers spell their values gets each error exactly when it is due, over the tables, the clock and the body: unknown device for an id that is not listed, revoked for one that is, then the limiter, the clock, the length of the body, framing, signature and nonce; its device exactly when none is |
| Refusals.ShapelessRefused | pc-service/src/wol_unlock/http/middleware.py:238-247 | Any other request is refused, as a bad request but for a number of more than 4300 digits without a query string |
| Refusals.TablesExactly | pc-service/src/wol_unlock/http/middleware.py:278-293 | An admitted request spends its nonce for twice the skew and records the visit, and any other leaves the tables |
| Refusals.StepsAreMiddleware | pc-service/src/wol_unlock/http/middleware.py:236-294 | A request without interference is its three steps of the admission protocol: same tables, and admitted by the one when by the other |
| Middleware.AuthMiddleware | pc-service/src/wol_unlock/http/middleware.py:236-294 | Outcome, tables and limiter after one request without interference, which `DecidedExactly` and `TablesExactly` say error by error; the limiter is asked exactly when the device is known and not revoked |
| Store.Store.UpsertDevice | pc-service/src/wol_unlock/store.py:186-215 | A new row, or the old one renamed and no longer revoked with its last visit kept; nothing when another row holds the key or the name holds a lone surrogate |
| Store.Store.RevokeDevice | pc-service/src/wol_unlock/store.py:236-244 | The first revocation is recorded and reported, a repeated one changes nothing |
| Store.Store.DeleteDevice | pc-service/src/wol_unlock/store.py:246-252 | The row and all nonces of the device are gone, other devices' stay |
| Store.Store.ConsumeNonce | pc-service/src/wol_unlock/store.py:264-281 | True and recorded when unseen; false and unchanged otherwise |
| Store.Store.SweepNonces | pc-service/src/wol_unlock/store.py:283-288 | Exactly the rows with an expiry later than now stay, and the number removed is reported |
| Store.Store.PruneAudit | pc-service/src/wol_unlock/store.py:339-352 | A prefix is dropped: the rows at least `keep` ids behind the newest; at most `keep` rows stay |
| RateBudget.Budget | pc-service/src/wol_unlock/ratelimit.py:26-43 | Over any interval of any run a key is admitted at most a burst plus the refill, and a burst more per forced eviction of it |
| RateBudget.Conservation | pc-service/src/wol_unlock/ratelimit.py:26-62 | What was spent and what is left never exceed what there was, the refill, and a burst per forced eviction |
| RateBudget.AdmitsExactly | pc-service/src/wol_unlock/ratelimit.py:26-43 | While its bucket is not evicted by force, a call is admitted exactly when, counted from each earlier call on, what was admitted and this call keep within a burst and the refill since: the limiter is a token bucket |
| RateBudget.TokensInRange | pc-service/src/wol_unlock/ratelimit.py:30-41 | Tokens stay between zero and the burst over every run |
| RateBudget.DroppingUnobservable | pc-service/src/wol_unlock/ratelimit.py:45-54 | While no bucket is evicted by force, every answer is that of a limiter with an unbounded table |
| RateBudget.RefillInPieces | pc-service/src/wol_unlock/ratelimit.py:34-36 | A clamped refill in two pieces is one clamped refill |
| RateBudget.TableBoundedExactly | pc-service/src/wol_unlock/ratelimit.py:45-62 | The table stays within its bound in every run if and only if the bound is at least two |
| RateLimit.RateLimiter.Allow | pc-service/src/wol_unlock/ratelimit.py:26-43 | Answer and new buckets of a call after a legal eviction; refilled and charged exactly when admitted |
| RateLimit.RateLimiter.Evict | pc-service/src/wol_unlock/ratelimit.py:45-62 | What an eviction may leave: refilled buckets dropped, and by force only the older half |
| RateLimit.RateLimiter.ForgetHalf | pc-service/src/wol_unlock/ratelimit.py:55-62 | Half of the buckets go, none of them newer than one that stays |
| Base64Url.DecodeIsInverse | mobile/src/crypto/canonical.ts:62-97 | A text decodes to bytes exactly when it is their encoding: both round trips and strictness |
| Base64Url.DigitsAreNumeral | mobile/src/crypto/canonical.ts:37-60 | The digits of the encoding are the base-64 numeral of the bytes read as one number, zero-padded to whole digits |
| Base64Url.NumeralUnique | mobile/src/crypto/canonical.ts:37-60 | Digits of one length with one value are equal, so the numeral determines the encoding |
| Base64Url.AlphabetSpelled | mobile/src/crypto/canonical.ts:29-35 | The alphabet of RFC 4648, section 5, character by character, lists the symbols in digit order |
| Base64Url.AcceptsExactlyCanonical | mobile/src/crypto/canonical.ts:62-97 | A text is accepted exactly when it is over the alphabet, of possible length and with zero trailing bits |
| Base64Url.EncodeLoop | mobile/src/crypto/canonical.ts:37-60 | The loop computes the encoding |
| Base64Url.FillBuffer | mobile/src/crypto/canonical.ts:62-92 | The buffer of three quarters of the length is filled exactly, and no group is found truncated |
| Base64Url.DecodeLoop | mobile/src/crypto/canonical.ts:62-97 | The phone's decoder accepts exactly the canonical texts of the expected length, with the bytes they encode |
| Base64Guards.ServiceDecodesStrictly | pc-service/src/wol_unlock/crypto/canonical.py:42-64 | With any library decoder right on encodings, the service's pattern (which lets a trailing line feed through) and re-encoding guard together make it the strict decoder |
| Base64Guards.NativeDecodesStrictly | mobile/native/WUProtocol.swift:59-82 | With any library decoder right on encodings, the round-trip guard makes the native decoder the strict one |
| Base64Guards.DecodersAgree | mobile/native/WUProtocol.swift:59-82 | Phone, service and native code accept the same texts with the same bytes |
| Canonical.RequestReadsBack | pc-service/src/wol_unlock/crypto/canonical.py:98-119 | Every field of a framed request can be read back, the method in upper case |
| Canonical.RequestInjective | mobile/src/crypto/canonical.ts:138-159 | Equal request texts mean equal fields, methods up to case |
| Canonical.ResponseInjective | mobile/src/crypto/canonical.ts:161-175 | Equal response texts mean equal fields |
| Canonical.PairInjective | mobile/src/crypto/canonical.ts:178-190 | Equal pairing texts mean equal fields, codes up to case |
| Canonical.DomainsDisjoint | pc-service/src/wol_unlock/crypto/canonical.py:90-152 | No text is the framing of two of request, response and pairing proof |
| Canonical.RequestBuilt | mobile/src/crypto/canonical.ts:129-159 | Framing succeeds exactly when no field holds a line break |
| Canonical.RequestSpelled | pc-service/src/wol_unlock/crypto/canonical.py:98-119 | The text of a request, line by line |
| Canonical.ResponseSpelled | pc-service/src/wol_unlock/crypto/canonical.py:122-141 | The text of a response, line by line |
| Canonical.PairSpelled | pc-service/src/wol_unlock/crypto/canonical.py:144-152 | The text of a pairing proof, line by line |
| PairingCode.FixedPoints | pc-service/src/wol_unlock/pairing.py:54-67 | Normalization leaves exactly the texts over the code alphabet alone, generated codes among them |
| PairingCode.NormalizeIdempotent | mobile/src/crypto/canonical.ts:199-207 | Normalizing twice is normalizing once |
| PairingCode.DisplayNormalizes | pc-service/src/wol_unlock/pairing.py:64-72 | The displayed form of a generated code, in either case, normalizes to the code |
| PairingCode.TypedCharacter | pc-service/src/wol_unlock/pairing.py:43-67 | What each typed character comes to: i, l and 1 to 1, o and 0 to 0, u and v to V, other letters raised, digits kept, the rest dropped |
| TicketRoundTrip.PayloadReadsBack | pc-service/src/wol_unlock/pairing.py:79-92 | For every valid configuration, fingerprint and generated code, parsing the printed payload gives name, host, port, fingerprint, code, addresses and broadcast back |
| TicketRoundTrip.AnyPayloadRead | mobile/src/actions/pair.ts:35-78 | For parameters in any order under distinct keys, which may be missing or empty: refused exactly without host, fingerprint or a port in range, and what stands for the rest |
| TicketRoundTrip.MacsReadBack | mobile/src/actions/pair.ts:55-70 | Stripped, joined, split and regrouped hardware addresses are the configured ones |
| TicketRoundTrip.NormalizeMacWellFormed | pc-service/src/wol_unlock/config.py:65-70 | An accepted hardware address is normalized to six lower-case pairs joined by colons |
| PercentCoding.QuoteReadsBack | mobile/src/actions/pair.ts:43-53 | Percent and plus quoting over UTF-8 is undone by plus replacement and percent decoding, for every text without lone surrogates |
| PercentCoding.QuotedCharacter | pc-service/src/wol_unlock/pairing.py:79-92 | What each byte is written as |
| Ticket.ParsePairingTicket | mobile/src/actions/pair.ts:35-78 | The parser's loops compute the parsed ticket or refuse |
| Auth.AcceptedSpellings | pc-service/src/wol_unlock/crypto/verify.py:39-95 | Accepted headers spell timestamp, nonce and signature in the one canonical way |
| Auth.ParseExactly | pc-service/src/wol_unlock/crypto/verify.py:39-95 | Headers are accepted as certain values exactly when they spell those values in version 1 |
| Auth.ParseRaisesExactly | pc-service/src/wol_unlock/crypto/verify.py:39-95 | Conversion raises exactly for a version of more than 4300 digits, or such a timestamp behind a good version and device |
| Auth.ParseAuthHeaders | pc-service/src/wol_unlock/crypto/verify.py:39-95 | Every refusal is a bad request, but for a version or timestamp of more than 4300 digits, which is an internal error; nothing accepted holds one |
| Exchange.HeadersReadBack | mobile/src/api/client.ts:146-185 | The service reads from an honest phone's headers exactly what it put there |
| Exchange.MessageRebuilt | pc-service/src/wol_unlock/crypto/verify.py:116-147 | The service rebuilds the signed text byte for byte if and only if it hashes the body the phone hashed |
| Exchange.RebuiltWhenSent | mobile/src/api/client.ts:146-175 | The service rebuilds what was signed for every call that posts its payload or has none and, when the digest tells that payload from nothing, for no other |
| Exchange.HonestCallDecided | mobile/src/api/client.ts:146-195 | An honest call is admitted exactly when the service's state allows it, and never refused for its shape or signature |
| Exchange.HonestAcceptable | mobile/src/api/client.ts:146-185 | Every honest call of admissible length is acceptable in the sense of the tight runs, so those runs exist for it |
| Exchange.SignedExactly | pc-service/src/wol_unlock/http/middleware.py:116-165 | An answer leaves signed, whichever layer gave it, if and only if it holds no lone surrogate; then it carries the reply's status and, in UTF-8, the rendered reply, which `ReplyArrives` reads as the phone does |
| JsonReader.RenderReadsBack | pc-service/src/wol_unlock/http/middleware.py:116-143 | A reader of JSON texts in general, white space, escapes and all, reads from the rendered payload exactly the payload, for every payload |
| Envelope.PayloadMeans | mobile/src/api/client.ts:123-138 | From the rendered reply the phone's parser gets the data exactly for a success, under status 200, and code, message and status exactly for a failure |
| Envelope.ReplyArrives | mobile/src/api/client.ts:80-138 | Every reply without a lone surrogate, and no other, is accepted as the paired service's, and the phone makes of its bytes exactly what was replied |
| Json.RenderEncodable | pc-service/src/wol_unlock/http/middleware.py:143 | The rendered payload can be encoded if and only if every string in it can |
| Unicode.Utf8ReadsBack | pc-service/src/wol_unlock/http/middleware.py:143 | Encoding succeeds on texts without lone surrogates, and the bytes determine the text |
| Exchange.ResponseAccepted | mobile/src/api/client.ts:80-121 | The phone accepts the paired service's answer, whichever layer gave it, if it holds no lone surrogate, and refuses it as unsigned otherwise |
| Exchange.AcceptedMeansSigned | mobile/src/api/client.ts:80-121 | An accepted response carries a signature verifying over this status, nonce and the text that the phone read from the body, and no other |
| Exchange.NonceEchoed | pc-service/src/wol_unlock/http/middleware.py:93-113 | The echoed nonce is the one the phone sent |
| Middleware.EchoExactly | pc-service/src/wol_unlock/http/middleware.py:93-113 | A nonce is echoed exactly when the trimmed header spells its 16 bytes, and nothing exactly when it spells none |
| Session.FindUnlockTarget | pc-service/src/wol_unlock/session.py:253-277 | With an id, that session if it is the user's own and graphical; without, the first of lexicographically least rank among the user's graphical sessions that were listed and read; no session exactly when all were read and none is; an internal error exactly when the listing fails or a read breaks off; the reads are given exactly, and no unlock is issued |
| Session.SortedLeads | pc-service/src/wol_unlock/session.py:243-277 | The head of the stably sorted candidates is the first-listed one of least rank |
| Session.BeforeExactly | pc-service/src/wol_unlock/session.py:243-250 | A locked session ranks first, then an active one, then the lower number, a name counting as a million |
| Session.ListOwnSessions | pc-service/src/wol_unlock/session.py:226-240 | Exactly the listed sessions of the user with a usable class are read once, in order, and those shown as the user's own are returned; it fails exactly when the listing fails or a read does, with which it ends |
| Session.WantedExactly | pc-service/src/wol_unlock/session.py:226-237 | An id is read exactly when it is listed for the user with no class or the class user |
| Session.ListSessionIds | pc-service/src/wol_unlock/session.py:142-183 | The JSON entries or else the table rows that are well formed, in order |
| Session.ListableExactly | pc-service/src/wol_unlock/session.py:142-183 | When the listing succeeds, from which output, and exactly which entries or rows are listed |
| Session.AwaitUnlocked | pc-service/src/wol_unlock/session.py:311-327 | Polling stops at the first read that is not locked or comes after the deadline, its verdict is that read's, and there are at most timeout over interval plus one reads |
| Session.StaysLocked | pc-service/src/wol_unlock/session.py:311-327 | With steps that take no time and a session that stays locked, polling stops at the 26th read, after exactly five seconds |
| Session.UnlockSession | pc-service/src/wol_unlock/session.py:280-308 | The answer and every command, by cases over what the login manager answers: the error of the search if there is no target; success at once, and no command, for a target shown clear; for one shown locked the command is given, once, and then an internal error exactly when it cannot run or a read breaks off, an unlock failure exactly when it fails or the poll ends without a clear read, and otherwise success with what a last read shows, or the target if it is gone |
| Session.UnlocksOneWay | pc-service/src/wol_unlock/session.py:280-308 | What the login manager answers determines the answer and every command: no two outcomes meet that contract |
| ControlClient.NumbersFresh | pc-service/src/wol_unlock/control/client.py:72-78 | Later calls have larger numbers |
| ControlClient.EndsForAReason | pc-service/src/wol_unlock/control/client.py:72-95 | A call ends once: with a message of its own number received after it was made, by timeout, by cancellation, or as lost after the reader ended |
| ControlClient.CallAccepted | pc-service/src/wol_unlock/control/client.py:72-83 | While the reader runs, a call gets a number that was never used and waits under it |
| ControlClient.ReplyReaches | pc-service/src/wol_unlock/control/client.py:57-60 | In reachable states a reply to a call that waits lets it go on, and what it then ends with is that very message |
| ControlClient.LossReaches | pc-service/src/wol_unlock/control/client.py:62-70 | In reachable states the end of the reader lets every waiting call go on, and it then ends as lost |
| ControlClient.ReceivedMeansReply | pc-service/src/wol_unlock/control/client.py:72-95 | Through every further run, a call whose message was received ends with that message, unless it is cancelled or its timer fires before it goes on |
| ControlClient.EventsQueued | pc-service/src/wol_unlock/control/client.py:53-56 | The queue holds every event line that was received, in order |
| ControlClient.RepliesApart | pc-service/src/wol_unlock/control/client.py:57-60 | One message ends at most one call |
| ControlClient.LateReplyIgnored | pc-service/src/wol_unlock/control/client.py:57-60 | A reply to a finished or unknown call sets no future and ends no call |
| ControlClient.ClosedIsFinal | pc-service/src/wol_unlock/control/client.py:62-74 | After the reader ended no call is pending or accepted, for good, and every waiting call can go on |
| ControlClient.PendingExactly | pc-service/src/wol_unlock/control/client.py:72-87 | The table holds the unfinished calls that cannot go on yet, and of the finished ones only aborted calls |
| ControlClient.ControlClient.EndReader | pc-service/src/wol_unlock/control/client.py:62-70 | Exactly the unset futures in the table fail, and the table is empty |
| ControlClient.ControlClient.Take | pc-service/src/wol_unlock/control/client.py:45-60 | One line sets the future of its number at most once, and leaves all others |
| WidgetBridge.WritesSpaced | mobile/src/state/widgetBridge.ts:71-89 | Any two writes of a run are at least two seconds apart |
| WidgetBridge.AtMostOneTimer | mobile/src/state/widgetBridge.ts:77-83 | At most one timer is outstanding, and it is the remembered one |
| WidgetBridge.NothingLostExactly | mobile/src/state/widgetBridge.ts:92-102 | In every reachable state the content of a mirrored store is published or has a timer pending, if and only if at most one mirror runs at a time |
| WidgetBridge.SkipsExactly | mobile/src/state/widgetBridge.ts:71-83 | A publication of content the widgets have does nothing exactly in the second of the last one, or while a timer is set within the interval |
| WidgetBridge.RewritesExactly | mobile/src/state/widgetBridge.ts:86-88 | It is written again exactly when the interval is over and the second is another |
| WidgetBridge.UnchangedRewritten | mobile/src/state/widgetPayload.ts:51-58 | From any time two seconds or more after the clock began there is a run that writes the same content twice in a row |
| WidgetBridge.TimerFlushes | mobile/src/state/widgetBridge.ts:76-88 | A firing timer leaves the content published and nothing pending exactly when the interval since the last write is over, or the last write had this content in this second |
| WidgetBridge.TwoTimersFlush | mobile/src/state/widgetBridge.ts:76-88 | Without a change in between, the second timer that fires when due has published the content |
| WidgetBridge.PublishesExactly | mobile/src/state/widgetBridge.ts:71-89 | New content is written, with the second of its making, exactly when two seconds have passed since the last write, and otherwise waits for a timer |
| WidgetBridge.DueOnTime | mobile/src/state/widgetBridge.ts:76-83 | A timer that is set is due two seconds after the last write |
| WidgetBridge.Bridge.Publish | mobile/src/state/widgetBridge.ts:71-89 | Variables, timers and writes after one publication, for each of its branches |

## Left out

- PairingManager.PairingManager.FinishLocked: one step, although two store calls are awaited under the lock; `PairingLog.BetweenHalves` and `Service.ServedBetween` state what becomes of a step that comes between them, but for a restart.
- PairingManager.PairingManager.Submit: platform texts outside ASCII.
- Status.StatusSignedExactly: the other fields of the status answer are any fields without a lone surrogate.
- Exchange.SignedExactly: the body that the web framework sends with its own unsigned answer.
- PairingTheorems.EventsTellState: listeners and the payloads of events are not modelled; a listener cannot change the manager.
- Middleware.AuthMiddleware: the network allow-list and the per-address bucket of the layers outside it, and the audit rows of refusals.
- RateBudget.Budget: reals instead of floating point, so rounding is not covered.
- PairingCode.FixedPoints: non-ASCII letters and digits in typed codes.
- TicketRoundTrip.PayloadReadsBack: names with leading or trailing white space outside ASCII, which trimming would treat differently.
- Session.ListSessionIds: JSON decoding and line splitting of what the commands print; the entries and rows are taken as already split.
- Session.AwaitUnlocked: needs that every sleep takes at least its interval, as the event loop promises.
- ControlClient.ControlClient.Take: the key equality of Python dictionaries between numbers and booleans is folded into one kind of number.
- The JSON bodies of endpoints other than the status answer, error texts, the table of codes and HTTP statuses, and the mapping of exceptions to codes outside the modelled paths.
- The network allow-list's address arithmetic, magic packets, wake destinations, device selectors, configuration files: correct, but with easy properties only.
- SQLite, threads, sockets, mDNS, the keychain, subprocesses, screens, widgets and catalogues.
