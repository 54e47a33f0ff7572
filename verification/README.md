# Auth service: one-time codes, reset tokens, admin token, change feed

A Dafny model of the stateful protocols of the auth service, with proofs that run over every sequence of
requests, every interleaving and every failing operation. `dafny verify dfyconfig.toml` checks it.

## What is modelled

**The code, token, lock and state protocol over one shared cache.** The cache is one flat map from strings to
documents with an expiry. `keys.dfy` gives the names of the four families of entries and an exact inverse of
them; `store.dfy` is the cache as the protocol means it, four typed maps; `cache.dfy` is the mutable client over
strings, which stands for exactly one typed store. `services.dfy` and `usecases.dfy` are the service and use-case
objects; each method is proved to take the step that `protocol.dfy` gives for it, and `ServeAll` extends this to
any sequence of requests, with the outcome of each. So what is proved about runs of the protocol holds of the
string-keyed cache. `errors.dfy` is the way a failed check is reported to the user, by words found in error texts.

`requests.dfy` says of each request, case by case and without the functions of `protocol.dfy`, what it is answered and
what it changes. `origins.dfy` draws from that, for every run, which earlier requests lie behind each effect on the
directory and each announced login.

Every run keeps a log of events. `history.dfy` says what a log means without looking at the store;
`invariant.dfy` proves that in every run the store is exactly what the log says, and that each event is justified
by the events before it. `theorems.dfy`, `counting.dfy` and `noise.dfy` draw the guarantees from that; `slack.dfy`
shows that the counts of `counting.dfy` are exact. In this layer calls do not overlap.

**The same code check, one cache operation per step.** `interleaved.dfy` lets any number of senders and verifiers
interleave, with any failures; `attained.dfy` shows that its bounds cannot be lowered for any number of concurrent
checks and of failures; `lockout.dfy` says when a code is refused before the comparison, and `survival.dfy` when a
freshly sent code stays good; `uninterrupted.dfy` shows that a verifier nobody interrupts does what the atomic check
does. `redeem.dfy`, with `handedout.dfy` for its bound, treats reading and deleting a reset token or a social-login state in the same way, with the data each
caller is handed, and `lock.dfy` the registration lock; the atomic reset, the atomic exchange and the atomic
registration are each shown to be the uninterrupted case.

**The admin token** (`admin.dfy`): a mutex-guarded memo with a 30-second margin.

**The change-feed consumer** (`cdc.dfy`): poll, emit, commit over one partition, with every kind of poll (records,
errors, or both), failing commits, a crash possible at any moment and a restart at the committed offset.

## Assumptions

- Times are integers in nanoseconds. In the atomic layer a call takes no time; `Wait` passes time between calls.
- Random draws, directory answers, the mail server, Keycloak and failing operations are arguments of a call, so a
  statement about every run covers every answer. A write whose error the code looks at ends in one of three ways:
  acknowledged, done although an error is reported, or not done. For increments and deletions, whose errors the code
  ignores, a failure means that they had no effect.
- The cache contract is that of docs/OTP_REDIS_INTEGRATION.md: writing sets a fresh expiry, a read misses at and
  after the expiry, incrementing is atomic, keeps the expiry and does nothing on a missing key, setting the lock
  if absent is atomic.
- Text is ASCII for trimming, lower-casing and the length of a password, which the code counts in bytes.

## Where the code and its promises differ

- The documentation promises five wrong guesses. The check reads, increments and deletes in separate operations, so
  with k checks of one code under way 4 + k wrong guesses can be compared, and one more for every increment that
  fails. The bound is proved, and so is, for every k and every number of failed increments, a run that reaches it.
- A correct code can be accepted more than once while several checks are under way, or when its deletion fails:
  at most k times, plus once per failed deletion; for every k and every number of failed deletions some run reaches
  that.
- A live code is refused before the comparison if and only if five increments have landed on it. If checks do not
  overlap, that is if and only if an eviction of it failed. If two or more checks of one slot overlap, it also happens
  with no failure and no deletion ever due, and then the right code is refused too; such a run is given for every
  number of overlapping checks from two on.
- A code sent while a check of its slot is under way can be deleted by that check, which read an earlier code, or be
  unable to bear four wrong guesses. A code sent while none is under way bears them; this is an exact condition.
- The registration lock is deleted without checking its owner. Exclusion holds exactly while every registration
  ends within the 30 seconds of its lock; a late one lets a second begin and can then delete the second one's lock,
  and a run in which that happens is given.
- The consumer skips the records of a poll that also brings errors, and the next successful commit passes them. From
  then on such a record is handed to the producer if and only if that happened before the poll; only a restart before
  the commit offers it again. A run that loses a created user for good is given.
- An admin token whose answer took more than 30 seconds to record can be served after it has expired, exactly if its
  lifetime exceeds 30 seconds.
- If reading a code fails and the cache's own error text holds one of the words looked for (`invalid`, `expired`,
  `not found`, `max retry exceeded`), the user is told the code was wrong, expired or used up; in no other case is the
  report wrong.
- The default branch of the purpose mapping lets other strings through than the three purposes. Two different purpose
  strings can then share a key if and only if they are `forgot` and `forgot-password`, or the one purpose followed by a
  colon begins the other. The request validator refuses all but the three
  (internal/delivery/http/dto/auth_dto.go:12 and :20), and those never share one.

## Model

| member | source | states |
|---|---|---|
| Text.TrimSpaceIsTight | internal/usecase/otp.go:108-109 | Trimming leaves no white space at either end, and is the identity exactly on strings that have none there |
| Text.TrimSpaceExactly | internal/usecase/otp.go:108-109 | Trimming gives exactly the part between the white space at the two ends |
| Text.NormaliseExactly | internal/usecase/otp.go:60 | An identifier is the trimmed address with the capitals A to Z, and nothing else, made small |
| Text.NormaliseIdempotent | internal/usecase/otp.go:60 | An identifier is its own normal form |
| Text.ParseAfterFormat | pkg/auth/otp.go:62 | Zero-padded rendering of 0 .. 10^w - 1 gives w digits and is undone by decimal parsing, for every width |
| Text.FormatAfterParse | pkg/auth/otp.go:62 | Every string of w digits is the rendering of the number it parses to |
| Text.CodesAreSixDigits | pkg/auth/otp.go:56-63 | Every code has six digits, is untouched by trimming and comes from one draw only |
| Text.DigitsOfCode | pkg/auth/otp.go:62 | A code is the six decimal digits of its draw, the highest first |
| Text.EverySixDigitStringIsACode | pkg/auth/otp.go:57-62 | Every six-digit string is the code of some draw |
| Keys.KeyStrings | docs/OTP_REDIS_INTEGRATION.md:10-12 | The key strings of the codes of each purpose, of tokens, locks and states |
| Keys.PrefixesDisjoint | pkg/auth/reset_token.go:14 | No prefix of one family begins with that of another (codes of each purpose, tokens, locks, states) |
| Keys.StripRendered | internal/usecase/otp.go:160 | A rendered key has its own family's prefix, followed by its payload, and no other family's |
| Keys.ParseAfterRender | pkg/auth/otp.go:42-44 | Every key is recovered from its string, whatever characters its payload holds |
| Keys.ParseInverts | internal/usecase/auth_keycloak.go:172 | A string parses to a key if and only if it is that key's string |
| Keys.RenderInjective | pkg/auth/otp.go:42-44 | Different keys have different strings |
| Keys.AcceptedPurposesKeepKeysApart | internal/usecase/otp.go:249-260 | Under the three accepted purpose strings two requests share a key if and only if purpose and identifier are equal |
| Keys.SharedKeys | pkg/auth/otp.go:42-44 | For any purpose strings two requests have the same key exactly if purpose and identifier agree, or a colon moved between purpose and identifier |
| Keys.PurposesCollideExactly | internal/usecase/otp.go:249-260 | Two different purpose strings can share a key if and only if they are `forgot` and `forgot-password`, or one purpose and a colon begin the other |
| CheckErrors.ClassifiedExactly | internal/usecase/otp.go:228-247 | Too many tries, expired or wrong code is reported for exactly the verdict it belongs to, except that after a failed read the words in the cache's error decide |
| SharedCache.RepresentsOneStore | pkg/auth/otp.go:34-36 | A flat cache stands for one typed store only |
| SharedCache.PutSimulates | pkg/auth/otp.go:66-70 | Writing under a rendered key writes that key of its own typed map and changes nothing else |
| SharedCache.DropSimulates | pkg/auth/otp.go:103-105 | Deleting a rendered key removes it from its own typed map and changes nothing else |
| SharedCache.Cache.SetJSON | docs/OTP_REDIS_INTEGRATION.md:24 | Overwrites the value with a fresh expiry, also when only the answer is lost; a lost write changes nothing |
| SharedCache.Cache.GetJSON | docs/OTP_REDIS_INTEGRATION.md:25 | Hits exactly on a stored, unexpired key and returns its document, of the family's own kind |
| SharedCache.Cache.JSONIncrementField | docs/OTP_REDIS_INTEGRATION.md:26 | Adds one to a live code's counter, keeps its expiry, does nothing on a missing key |
| SharedCache.Cache.Delete | pkg/auth/otp.go:85 | Removes exactly that key, or nothing on failure |
| SharedCache.Cache.SetNX | internal/usecase/otp.go:160-168 | Takes the lock if and only if nobody holds an unexpired one and the write is not lost |
| Services.OTPService.GenerateOTP | pkg/auth/otp.go:56-63 | A six-digit code that parses to the draw and survives trimming, or none if the random source fails |
| Services.OTPService.StoreOTP | pkg/auth/otp.go:66-70 | Stores the code with counter zero and the purpose's lifetime, or nothing |
| Services.OTPService.ValidateOTP | pkg/auth/otp.go:73-100 | Read, increment and delete over the string cache give the typed store's verdict and leave the store it prescribes, under every failure |
| Services.OTPService.DeleteOTP | pkg/auth/otp.go:103-105 | Removes that slot's code only |
| Services.ResetTokenService.Generate | pkg/auth/reset_token.go:33-40 | Stores the token for ten minutes with its address and user |
| Services.ResetTokenService.Validate | pkg/auth/reset_token.go:43-54 | Yields the data of a live token and deletes it, otherwise changes nothing |
| UseCases.OTPUseCase.SendOTP | internal/usecase/otp.go:59-101 | Takes the protocol's sending step: pre-check by purpose, then generate, store, mail |
| UseCases.OTPUseCase.VerifyAndDeleteOTP | internal/usecase/otp.go:228-247 | Validates, deletes on acceptance only, and otherwise reports too many tries, expired or wrong code as found, or what the words of a read error say |
| UseCases.OTPUseCase.VerifyOTP | internal/usecase/otp.go:107-128 | Takes the protocol's verifying step; only an accepted code reaches the purpose's own continuation |
| UseCases.OTPUseCase.ResetPassword | internal/usecase/otp.go:134-144 | Spends the token first and then sets the password of the user in it |
| UseCases.OTPUseCase.AfterVerifyRegister | internal/usecase/otp.go:150-184 | Lock, register, release the lock only after a failed registration; a lock taken without an answer stays and ends the request |
| UseCases.OTPUseCase.AfterVerifyForgot | internal/usecase/otp.go:190-204 | Issues a token for the user the lookup found |
| UseCases.OTPUseCase.AfterVerifyChangeEmail | internal/usecase/otp.go:210-222 | Updates the address of a known caller only |
| UseCases.OTPUseCase.Serve | internal/usecase/otp.go:25-29 | Each request on the string cache is one step of the protocol on the typed store |
| UseCases.OTPUseCase.ServeAll | internal/usecase/otp.go:25-29 | Any sequence of requests on the string cache gets the outcomes of the protocol's run, one by one, and ends where it ends |
| UseCases.AuthKeycloakUseCase.SocialLoginURL | internal/usecase/auth_keycloak.go:161-189 | Stores a state for ten minutes, for an allowed provider only |
| UseCases.AuthKeycloakUseCase.ExchangeCode | internal/usecase/auth_keycloak.go:191-256 | Redeems and deletes the state before calling the token endpoint, announces the stored provider on success |
| UseCases.AuthKeycloakUseCase.RegisterWithVerifiedEmail | internal/usecase/auth_keycloak.go:285-326 | The verified user exists exactly when creation took effect, even if it went unanswered or a later stage fails |
| UseCases.AuthKeycloakUseCase.SetPasswordByUserID | internal/usecase/auth_keycloak.go:329-339 | The write is attempted exactly when an admin token was available |
| UseCases.AuthKeycloakUseCase.UpdateUserEmail | internal/usecase/auth_keycloak.go:342-361 | The write is attempted exactly when the entry was found |
| Requests.SendOutcome | internal/usecase/otp.go:59-101 | Refused exactly for a known address at registration or change, or an unknown one for a forgotten password; otherwise the first failing stage decides |
| Requests.SendEffect | internal/usecase/otp.go:86-95 | The draw's code is stored under purpose and normalised address for 60 seconds or ten minutes, or nothing changes |
| Requests.CheckOutcome | pkg/auth/otp.go:73-100 | Which of the five refusals a check meets, and that it passes exactly for the stored, unexpired code with fewer than five counted guesses |
| Requests.FailedCheckEffect | pkg/auth/otp.go:84-97 | What each refusal leaves of the stored code and its counter |
| Requests.ChangeEmailRequest | internal/usecase/otp.go:210-222 | The caller's own entry is written with the normalised address; done exactly if it was written |
| Requests.ForgotRequest | internal/usecase/otp.go:190-204 | The token issued and handed out is the one drawn, for the user the lookup found, for ten minutes |
| Requests.RegisterOutcome | internal/usecase/otp.go:150-184 | Which field, lock or registration decides how a registration ends |
| Requests.RegisterEffect | internal/usecase/otp.go:150-184 | When a verified user is created, and when the 30-second lock is taken and given back |
| Requests.ResetRequest | internal/usecase/otp.go:134-144 | A live token is spent and its user's password set; done exactly if that succeeded |
| Requests.LoginURLRequest | internal/usecase/auth_keycloak.go:161-189 | The state is stored with exactly the provider asked for, one of the three, for ten minutes |
| Requests.ExchangeRequest | internal/usecase/auth_keycloak.go:191-256 | A live state is deleted first; done exactly on tokens, announced exactly with a producer too, with the stored provider |
| Origins.StoredByLastPut | pkg/auth/otp.go:66-70 | In every run what is stored under a key is what the last request that wrote there put there, with that request's time and lifetime |
| Origins.EmailUpdateWasRequested | internal/usecase/otp.go:210-222 | Every change of address is a known caller's request for the own account, presenting the code last sent to that address for it within ten minutes |
| Origins.CreationWasRequested | internal/usecase/otp.go:150-184 | Every verified user comes from a complete registration presenting the code last sent to that address within 60 seconds |
| Origins.ResetWasRequested | internal/usecase/otp.go:134-144 | Every password set spends the token last issued under its name, issued to whoever presented the code last sent to an address of that user, each within ten minutes |
| Origins.AnnouncedProviderWasRequested | internal/usecase/auth_keycloak.go:243-248 | Every announced login names the provider asked for when the redeemed state was last issued, within ten minutes |
| History.LastWrite | pkg/auth/otp.go:66-70 | The latest write under a key, after which there is none |
| Invariant.CodesFollow | pkg/auth/otp.go:66-105 | The stored codes follow the log event by event: present exactly while standing, counter equal to the counted wrong guesses |
| Invariant.TokensFollow | pkg/auth/reset_token.go:33-54 | The stored tokens follow the log event by event |
| Invariant.StatesFollow | internal/usecase/auth_keycloak.go:171-204 | The stored social-login states follow the log event by event |
| Invariant.StepKeepsInv | internal/usecase/otp.go:59-247 | Every request, whatever fails in it, keeps store and log in agreement and the log justified |
| Invariant.EveryRun | internal/usecase/otp.go:59-247 | In every run the store is the one the log describes and every event is justified by those before it |
| Guarantees.RulesByTheLog | pkg/auth/otp.go:73-100 | Every verdict in every run is the one read off the log; in particular a code is accepted if and only if it is the latest, unexpired, neither redeemed nor evicted, and has fewer than five wrong guesses counted |
| Guarantees.TokenHonouredExactly | pkg/auth/reset_token.go:43-54 | A token is honoured, with the data it was issued for, if and only if it is under ten minutes old and not deleted since |
| Guarantees.StateHonouredExactly | internal/usecase/auth_keycloak.go:197-204 | A social-login state is honoured, with its provider, if and only if it is under ten minutes old and not deleted since |
| Guarantees.SingleUse | internal/usecase/otp.go:228-247 | Between a use that deleted a code, token or state and a later use there is a new write; the two uses honour different writes |
| Guarantees.ResetProvenance | internal/usecase/otp.go:134-144 | Every password reset spends the latest token under its name, still standing and issued for that user, after the lookup that found the user and acceptance of the latest, still standing code for the same address in time; under 1200 seconds in all |
| Guarantees.VerifiedEmailProvenance | internal/usecase/otp.go:107-128 | Creating a verified user or changing an address follows acceptance of the latest, still standing code stored under that address for that flow, within its lifetime |
| Guarantees.VerifiedWritesUseDistinctCodes | internal/usecase/auth_keycloak.go:292-302 | Two such writes use two different stored codes if the first one's code was deleted |
| Guarantees.RetryInvariant | pkg/auth/otp.go:84-97 | In runs of checks that do not overlap: the stored counter is the number of counted wrong guesses; it is past 4 if and only if a counted last guess since the latest store failed to delete the code, and then every guess is refused |
| Guarantees.LockoutExactly | pkg/auth/otp.go:84-87 | In runs of checks that do not overlap: a check of a live code stops at the guard before the comparison if and only if an eviction of that code has failed |
| Guarantees.LockoutNeedsFailedDelete | pkg/auth/otp.go:84-87 | In runs of checks that do not overlap: every refusal by that guard follows a failed eviction of the code it refused |
| Guarantees.ExchangeProvenance | internal/usecase/auth_keycloak.go:191-216 | Every token-endpoint exchange redeems the latest state under its name, still standing, under ten minutes old and for an allowed provider |
| Guarantees.OneExchangePerState | internal/usecase/auth_keycloak.go:202-216 | A deleted state authorises no second exchange until issued again |
| Guarantees.AnnouncedProviderIsStored | internal/usecase/auth_keycloak.go:243-248 | The login event names the provider the redeemed state was issued for |
| Conservation.CodeBalance | internal/usecase/otp.go:190-204 | Codes still stored plus acceptances never exceed codes stored plus acceptances whose deletion failed |
| Conservation.TokenBalance | pkg/auth/reset_token.go:43-54 | Tokens still stored plus spends never exceed tokens issued plus spends whose deletion failed |
| Conservation.Conserved | internal/usecase/otp.go:134-144 | In every run resets, tokens spent, tokens issued, codes accepted and codes stored are ordered, with failed deletions as the slack |
| Conservation.ConservedWithoutFailures | internal/usecase/otp.go:134-144 | With deletions succeeding: resets <= tokens issued <= forgot-password codes stored |
| ConservationAttained.SlackIsExact | internal/usecase/otp.go:134-144 | For every number of acceptances and of spends whose deletion failed, some run meets all four comparisons with equality |
| Noise.Projection | pkg/auth/otp.go:42-105 | All outcomes about one purpose and address depend only on time and on the calls that touch that pair |
| Noise.SentCodeStaysGood | internal/usecase/otp.go:59-128 | A sent code passes until it expires, under any spelling of the address, through any traffic with at most four wrong guesses and no re-send or redemption |
| InterleavedChecks.StepKeepsInv | pkg/auth/otp.go:73-100 | Per code: wrong guesses are at most increments landed, due or failed; acceptances are at most deletions due or failed |
| InterleavedChecks.GuessAndUseBound | pkg/auth/otp.go:73-100 | With at most k checks of a slot under way each stored code meets at most 4 + k wrong guesses plus failed increments, and at most k acceptances plus failed deletions |
| InterleavedChecks.GuardFiresExactly | pkg/auth/otp.go:84-87 | In every run, checks overlapping or not, a read of a live code goes on to delete it unseen if and only if five increments have landed on it |
| InterleavedChecks.NoComparisonAfterFive | pkg/auth/otp.go:84-87 | A read begun after five increments landed on a code compares nothing |
| BoundsAttained.GuessBoundIsMet | pkg/auth/otp.go:89-97 | For every k and every number l of failed increments some run compares exactly 4 + k + l wrong guesses with one code |
| BoundsAttained.UseBoundIsMet | internal/usecase/otp.go:245 | For every k and every number d of failed deletions some run accepts one code exactly k + d times |
| LockoutUnderOverlap.LockoutWithoutEviction | pkg/auth/otp.go:84-97 | For every k >= 2 some run without a failure or a deletion leaves a live code with counter 3 + k and nobody under way, and refuses the right code |
| LockoutUnderOverlap.LockoutNeedsOverlap | pkg/auth/otp.go:84-97 | Without a failed deletion the guard can fire if and only if two checks of one slot may overlap |
| CodeSurvival.StaysGoodExactly | internal/usecase/otp.go:59-128 | In every run a code sent now passes until it expires, through any interleaving with at most four wrong guesses at it and no re-send or redemption, if and only if no check of its slot is under way |
| CodeSurvival.DeletionTakesFreshCode | internal/usecase/otp.go:245 | The deletion after an acceptance can remove a code sent in between, which nobody has presented |
| UninterruptedCheck.AloneIsAtomic | internal/usecase/otp.go:228-247 | A verifier nobody interrupts has exactly the effect of the atomic check |
| UninterruptedCheck.SendIsAtomic | pkg/auth/otp.go:66-70 | Sending stores in the interleaved system what the atomic send stores |
| InterleavedRedemption.RedemptionBound | pkg/auth/reset_token.go:43-54 | With at most k callers per key what was put is handed out, unaltered, at most k times, plus once per failed deletion |
| RedemptionBoundAttained.RedemptionBoundIsMet | pkg/auth/reset_token.go:43-54 | For every k and every number d of failed deletions some run hands out what was put once exactly k + d times |
| InterleavedRedemption.ResetAlone | internal/usecase/otp.go:134-138 | Read and delete with nothing in between are the atomic reset: the same tokens and states are left, and it spends exactly the data handed out |
| InterleavedRedemption.ExchangeAlone | internal/usecase/auth_keycloak.go:197-204 | Likewise for the exchange and the provider of its state |
| RegistrationLock.MutualExclusion | internal/usecase/otp.go:159-180 | While registrations end within their lock's lifetime, at most one per address is under way and no deletion removes another's lock |
| RegistrationLock.ExclusionExactlyWhileTimely | internal/usecase/otp.go:159-180 | Exclusion survives every next request if and only if no registration has outlived its lock |
| RegistrationLock.LateCleanUpRemovesForeignLock | internal/usecase/otp.go:177-179 | A late registration lets a second begin and then deletes the second one's lock |
| RegistrationLock.LateRunExists | internal/usecase/otp.go:159-180 | Such a run: a registration that fails and has not cleaned up after 30 seconds, a second one beside it, and the second one's lock deleted |
| RegistrationLock.AloneIsAtomic | internal/usecase/otp.go:159-184 | The atomic registration does to the locks what its steps do uninterrupted, however setting the lock ends |
| AdminToken.KeycloakUseCase.GetAdminToken | internal/usecase/keycloak.go:46-62 | Serves the memo while usable, otherwise logs in, records and returns the token just granted, leaving the old pair on failure |
| AdminToken.KeycloakUseCase.Serve | internal/usecase/keycloak.go:47-48 | Callers serialised by the mutex get the answers of the run, one by one, and leave its memo |
| AdminToken.AnswersAt | internal/usecase/keycloak.go:47-61 | Each caller's answer is the one for the memo that the callers before it left |
| AdminToken.MemoIsLastLogin | internal/usecase/keycloak.go:54-61 | The memo is that of the last successful login |
| AdminToken.AnswersFollowLogins | internal/usecase/keycloak.go:46-62 | Every answer carries the token of the last successful login, the caller's own included; served, logged in or refused exactly as memo and login decide |
| AdminToken.ServedTokenIsValid | internal/usecase/keycloak.go:50-52 | A token served from the memo was granted by an earlier login and is unexpired if its answer took at most 30 seconds to record |
| AdminToken.SafeExactly | internal/usecase/keycloak.go:50-60 | After any run, every next caller served from the memo from some moment on gets an unexpired token if and only if the last answer took at most 30 seconds or the memo is no longer served then |
| AdminToken.LoginsAreSpaced | internal/usecase/keycloak.go:50-60 | The next login begins no earlier than the recorded expiry less 30 seconds |
| AdminToken.LoginRate | internal/usecase/keycloak.go:47-61 | n logins in a window W satisfy (n - 1)(E - 30) <= W |
| UserCDC.UserCDCConsumer.ProcessRecord | internal/consumer/user_cdc_consumer.go:114-189 | Hands over the row as created for `c` and `r`, as updated for `u`, if there is one, and nothing for any other record |
| UserCDC.UserCDCConsumer.Run | internal/consumer/user_cdc_consumer.go:86-112 | The loop takes the steps poll, process each record, commit, in this order, and on errors goes on past whatever came with them, for every sequence of fetches |
| UserCDC.UserCDCConsumer.Crash | internal/consumer/user_cdc_consumer.go:61-66 | A restart resumes at the committed offset |
| UserCDC.HandOffAtLeastOnce | internal/consumer/user_cdc_consumer.go:88-111 | In every run committed never passes what was dealt with, everything below it was handed over or came with errors, and emissions are gap-free stretches of the log in order |
| UserCDC.CleanHandOff | internal/consumer/user_cdc_consumer.go:104-110 | If no poll brings errors and records together, exactly the records up to the furthest point were handed over, committed ones among them |
| UserCDC.ReplayConvergence | internal/consumer/user_cdc_consumer.go:86-189 | Back at the furthest point, the fold of all emissions agrees with the fold of the log prefix at every id whose last record was processed, not skipped, when last passed, and everywhere if everything skipped that emits was processed since, however often parts were replayed |
| UserCDC.ReplicaHoldsLastRows | internal/consumer/user_cdc_consumer.go:86-189 | Back at the furthest point the replica holds at each id exactly the row of the last `c`, `r` or `u` record that brought one, if that was not skipped when last passed, and nothing if there is none |
| UserCDC.TurnCommits | internal/consumer/user_cdc_consumer.go:94-111 | A poll without errors hands every record over and then commits past them, unless the commit fails; one with errors commits nothing |
| UserCDC.RunCommits | internal/consumer/user_cdc_consumer.go:86-112 | After any fetches the committed offset is the position after the last poll without errors whose commit went through |
| UserCDC.LostExactly | internal/consumer/user_cdc_consumer.go:94-102 | Below the committed offset exactly the skipped records that emit and lie in no stretch are missing, for good |
| UserCDC.RecoverableExactly | internal/consumer/user_cdc_consumer.go:94-111 | Some continuation hands a record over if and only if that has happened already or no commit has passed it |
| UserCDC.MixedPollLosesExactly | internal/consumer/user_cdc_consumer.go:94-102 | Once a commit has succeeded after a poll with errors and records, a record of that batch is handed over in any continuation if and only if it had been before the poll |
| UserCDC.RestartOffersBatchAgain | internal/consumer/user_cdc_consumer.go:94-111 | While no commit has succeeded since, a restart and a clean poll hand every record of that batch over, and none of it counts as skipped any more |
| UserCDC.OneUserLost | internal/consumer/user_cdc_consumer.go:94-102 | A run in which a created user is committed past and no continuation ever calls the producer |

## Left out

- HTTP handlers, routing, configuration, mail delivery, migrations, audit log, role management: plumbing around the protocols.
- Text.TrimSpaceIsTight: ASCII white space only; Unicode spaces, which the code trims too, are left out.
- Text.NormaliseIdempotent: ASCII trimming and lower-casing only; Unicode case folding is left out.
- UseCases.AuthKeycloakUseCase.SocialLoginURL: the URL built from the state and the configuration is not modelled, nor is a missing (nil) cache.
- UseCases.AuthKeycloakUseCase.ExchangeCode: the tokens handed on from the token endpoint are not modelled, nor is a missing (nil) cache.
- UseCases.AuthKeycloakUseCase.RegisterWithVerifiedEmail: the directory is not a map of users; its answers are arguments and the creation is an event of the log.
- UseCases.AuthKeycloakUseCase.SetPasswordByUserID: the password itself has no state; each attempt to write it is an event of the log.
- UseCases.AuthKeycloakUseCase.UpdateUserEmail: the directory entry has no state; each attempt to write it is an event of the log.
- UserCDC.UserCDCConsumer.ProcessRecord: one field stands for all payload columns but the id; the topic, which follows from the kind of event and the environment, is left out, as is what the producer does afterwards.
- UserCDC.UserCDCConsumer.Run: the endless loop is taken for any finite sequence of fetches; the partition is any finite log, since a finite run sees only a finite part.
- UseCases.OTPUseCase.VerifyAndDeleteOTP: reports stand for the messages they are shown as; the two verdicts the code reports as retries exceeded stay apart in the verdict and fall together in the report.
- Which addresses are registered: a failed lookup counts as not found before a registration or a change of address, as in the code, so nothing is said about it.
- Profile updates: they change an address without touching the verified flag, so address provenance is stated over the writes that set the flag.
- Purposes other than the three accepted ones: the request validator refuses them; `Keys.PurposesCollideExactly` shows what they would do.
- Randomness, collisions of tokens and states: statements speak of the latest issue under a name instead of assuming names unique.
