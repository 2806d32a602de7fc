# Kratos, modelled and proved in Dafny

This project models the parts of Ory Kratos that are small state machines or pairs of a printer and a parser, and
proves what they promise over every input and every run.

| file | models |
|---|---|
| `Basics.dfy`, `Wrappers.dfy` | shared names, optional values and results |
| `Base64.dfy`, `Text.dfy`, `HashStrings.dfy` | password hash strings: unpadded strict Base64 (sections 3.2, 3.5 and 4 of RFC 4648), splitting, decimal printing and scanning, the Argon2id (RFC 9106) and PBKDF2 (section 5.2 of RFC 8018) formats, the comparison |
| `CourierProtocol.dfy` | the courier's message table under any number of workers, interleaved call by call, with failing writes and crashes |
| `CourierQueue.dfy` | one courier instance: the loops of `DispatchQueue`, proved to be a run of that protocol |
| `Addresses.dfy`, `IdentityValidation.dfy` | the three schema extensions and the validator that runs them over an identity |
| `IdentityStore.dfy` | what the identity store makes of what is written, what it may hand back, and the identities that survive both |
| `IdentityManager.dfy`, `IdentityReadBack.dfy` | the identity manager and every run of its operations; identities that cannot be saved as they were read |
| `Continuity.dfy` | pausing, continuing and aborting flows with replayable cookies |
| `Assurance.dfy`, `SessionProtocol.dfy`, `SessionManager.dfy` | assurance levels, the session store over time, sessions as objects, the tokens of a request |
| `OidcCredentials.dfy` | publishing decrypted OpenID Connect credentials |
| `Ciphers.dfy` | the two ciphers, key rotation, and the list of cipher secrets |
| `JsonNumber.dfy` | the JSON number scanner (section 6 of RFC 7159) |
| `SchemaKeys.dfy` | the recursive builder of schema key paths, with Go's shared slices |

`dafny verify dfyconfig.toml` checks all of it.

Code that works in place is modelled by classes and loops (`Courier`, `Manager`, the schema extensions, `ManagerCookie`,
`Session`, `ManagerHTTP`, `Keylist`, the scanners), each proved against a function of the old state; the promises are
lemmas about these functions and about all runs of them. In the run models an event that is not possible in a state does
nothing there. Outcomes of the network, the store, the clock and the random source are parameters of the events.

What is assumed of code outside the model:

- `NextMessages` atomically moves the oldest queued messages to processing; a failed status write has no effect.
- The session store keeps what it is given when it reports success. The identity store changes what it is given only by
  filling in missing configs and by lower-casing and trimming password identifiers, and it refuses empty identifiers.
  Later it may rewrite records of addresses, as long as their value and channel stay, and hand addresses and identifiers
  back in any order. Lower-casing and trimming twice is the same as once.
- Cookies cannot be forged but can be replayed at will; identifiers and session tokens that are drawn are new.
- The sequence of trait values a schema visits is a function of schema and traits, and its verdict on the document one
  of these and of which visits the extensions accepted; a schema may tolerate visits that fail.
- Key derivations return keys of the length asked for. For the ciphers: opening undoes sealing under the same key, and
  fails under the other keys of the list in question.

Six promises one might expect do not hold of the code as it is. Each is proved with its exact condition and shown to
fail on an input:

- A successful `PurgeFromRequest` does not always end the session the same request is served with: it reads the bearer
  token first and ignores `X-Session-Token` and `X-Session-Cookie`, while fetching reads these and the cookie first
  (`SessionManager.PurgedForever`; `SessionManager.PurgeMissesCookie`).
- A rejected session token is not rejected for ever if only its identity was disabled
  (`SessionProtocol.RejectedForever`; `SessionProtocol.DisabledReturns`).
- `XChaCha20Poly1305.Decrypt` measures the hexadecimal text, not the bytes, before it cuts off the nonce: hexadecimal
  texts of 24 to 47 digits panic (`Ciphers.DecryptXChaCha`; `Ciphers.ShortTextsPanic`).
- `SecretsCipher` copies the unfiltered list into the space of the filtered one: if there is a 32-byte secret at all, it
  panics unless these come first and all others are empty (`Ciphers.SecretsCipher`; `Ciphers.ShortSecretPanics`).
- Key paths are ambiguous when a property name other than the last ends with a backslash, since only dots are escaped
  (`SchemaKeys.ParseKey`; `SchemaKeys.BackslashCollides`).
- Storing an identity just as it was read is refused without privileges if the store handed its verifiable addresses or
  its password identifiers back in another order than that of the traits, or has trimmed such an identifier, since lists
  are compared with their order and validation collects them from the traits again (`IdentityManager.SavingUnchanged`;
  `IdentityReadBack.AddressOrderRefused`, `IdentityReadBack.IdentifierOrderRefused`, `IdentityReadBack.TrimmedRefused`).

## Model

| member | source | states |
|---|---|---|
| `Base64.DecodeExactlyCanonical` | hash/hash_comparator.go:126-132 | strict unpadded decoding accepts a text exactly when it is, line breaks aside, the encoding of the bytes returned |
| `Base64.DecodeEncoded` | hash/hasher_argon2.go:52-65 | every byte string survives encoding and decoding, and its encoding is made of the alphabet alone |
| `Base64.QuantumBits` | hash/hasher_argon2.go:52-65 | three bytes and their four groups are the same 24 bits, most significant first |
| `Base64.TailBits` | hash/hasher_argon2.go:52-65 | one or two last bytes are filled up with zero bits |
| `Base64.SymbolsAt` | hash/hasher_argon2.go:52-65 | every group is written as its symbol of the standard alphabet |
| `Text.ScanPrinted` | hash/hash_comparator.go:111-124 | scanning undoes printing for every format whose literals do not start with digits and all arguments in range |
| `Text.ScanNumberExactly` | hash/hash_comparator.go:112-124 | one verb reads exactly blanks, a sign where the type has one, and all digits of a value in range |
| `Text.DecimalNotation` | hash/hasher_argon2.go:52-58 | digits count by tens, and numbers are printed without leading zeros |
| `Text.SplitJoined` | hash/hash_comparator.go:105-109 | splitting undoes joining exactly when no part holds the separator; otherwise it yields more parts |
| `HashStrings.RecognisersDisjoint` | hash/hash_comparator.go:87-103 | no string is recognised as two algorithms |
| `HashStrings.BcryptAccepts` | hash/hash_comparator.go:34-45 | against a string that starts with "$2$" or with "$2", a, b, z or y and "$", a password is accepted exactly if it has at most 72 bytes and bcrypt accepts it, with the error otherwise |
| `HashStrings.Pbkdf2Exactly` | hash/hash_comparator.go:90-103 | PBKDF2 is recognised exactly by "$pbkdf2-sha", one to three digits and "$" |
| `HashStrings.UnknownExactly` | hash/hash_comparator.go:21-32 | the algorithm is unknown exactly if the string has none of these beginnings nor Argon2id's |
| `HashStrings.KilobytesOf` | hash/hasher_argon2.go:36-38 | memory is rounded down to units of 1024 bytes as long as these fit 32 bits |
| `HashStrings.HashFunctions` | hash/hasher_pbkdf2.go:54-69 | the hash function of every algorithm name |
| `HashStrings.Argon2DecodesExactly` | hash/hash_comparator.go:105-139 | the strings the Argon2id decoder accepts, and what it makes of them, both ways |
| `HashStrings.Argon2Errors` | hash/hash_comparator.go:105-139 | the error for every other string |
| `HashStrings.Pbkdf2DecodesExactly` | hash/hash_comparator.go:143-174 | the strings the PBKDF2 decoder accepts, and what it makes of them, both ways |
| `HashStrings.Pbkdf2Errors` | hash/hash_comparator.go:143-174 | the error for every other string |
| `HashStrings.Argon2Layout` | hash/hasher_argon2.go:40-65 | the printed Argon2id string, character for character: version 19, memory in KB, iterations, parallelism, salt, key |
| `HashStrings.DecodeArgon2idHash` | hash/hash_comparator.go:105-139 | filling in the parameters part by part, with the error of the first part that does not decode, is the decoder the theorems speak of |
| `HashStrings.DecodePbkdf2Hash` | hash/hash_comparator.go:143-174 | the same for PBKDF2, the scanned key length being overwritten by that of the decoded key |
| `HashStrings.Argon2Decodes` | hash/hash_comparator.go:105-139 | the printed string has exactly six parts and decodes to the memory in KB, iterations, parallelism, salt and key it was printed from |
| `HashStrings.Argon2Accepts` | hash/hash_comparator.go:47-65 | a password is accepted against a printed string exactly when both derive the same key from the printed parameters, and is a mismatch otherwise |
| `HashStrings.Argon2RoundTrip` | hash/hash_comparator.go:21-32 | every password is accepted against its own Argon2id string |
| `HashStrings.Pbkdf2Layout` | hash/hasher_pbkdf2.go:26-48 | the printed PBKDF2 string, character for character |
| `HashStrings.Pbkdf2Parts` | hash/hash_comparator.go:143-147 | the printed string splits into its five fields, or into more parts when the algorithm name holds a dollar sign |
| `HashStrings.Pbkdf2Decodes` | hash/hash_comparator.go:143-174 | the decoder returns exactly the settings, salt and key that were printed |
| `HashStrings.Pbkdf2Accepts` | hash/hash_comparator.go:67-103 | a password is accepted exactly when the algorithm is "sha" with one to three digits and the derived keys agree |
| `HashStrings.Pbkdf2RoundTrip` | hash/hash_comparator.go:21-32 | every password is accepted against its own PBKDF2 string if and only if the algorithm name is one the recogniser allows |
| `CourierProtocol.StepKeeps` | courier/courier.go:169-269 | every step of every worker keeps the table, the ownership of messages and the account of deliveries in order |
| `CourierProtocol.OneOwner` | courier/courier.go:239-269 | in every run a message is processing exactly when it is stuck or in the unfinished part of a worker's batch, never both, and that worker is the only one |
| `CourierProtocol.DeliveredOncePlusFailures` | courier/courier.go:209-226 | in every run a sent message went out once plus once per failed sent-write, a queued one once per failed sent-write |
| `CourierProtocol.SentIsTerminal` | courier/message.go:14-18 | a sent message stays sent and is never delivered again |
| `CourierProtocol.MessagesOnlyAdded` | courier/courier.go:98-138 | messages are only ever added, at the end |
| `CourierProtocol.NothingLost` | courier/courier.go:252-266 | without crashes and failed requeue writes every message is queued, sent or held by a worker |
| `CourierProtocol.UnexpectedNeverSent` | courier/courier.go:169-237 | in every run a message that is no email never goes out and never becomes sent |
| `CourierQueue.Courier.QueueEmail` | courier/courier.go:98-138 | a message whose template renders joins the end of the queue; otherwise nothing changes |
| `CourierQueue.Courier.DispatchMessage` | courier/courier.go:169-237 | succeeds exactly for an email that is sent and recorded; the state after either outcome |
| `CourierQueue.Courier.ResetFrom` | courier/courier.go:255-262 | the failed message and all behind it are reset, as far as the writes succeed |
| `CourierQueue.Courier.DispatchQueue` | courier/courier.go:239-269 | the whole state after a call: nothing without a host or when the table cannot be read, else the settled batch; fails exactly when some dispatch did |
| `CourierQueue.SettledIsRun` | courier/courier.go:239-269 | a call is a run of the worker's own protocol steps |
| `CourierQueue.SettledKeeps` | courier/courier.go:239-269 | a whole call keeps the protocol's invariant |
| `CourierQueue.SentPrefixQueuedSuffix` | courier/courier.go:252-266 | a call whose requeue writes succeed leaves its batch as a sent prefix and a queued suffix, all other messages untouched, nothing stuck |
| `CourierQueue.BatchSettles` | courier/courier.go:252-266 | whatever fails in a call: the status of every message after it, how often it went out, and which are stuck |
| `CourierQueue.QueueAfter` | courier/courier.go:252-266 | such a call takes exactly its sent messages off the front of the queue, in order |
| `CourierQueue.CallsDrain` | courier/courier.go:244-269 | without failures the queue is empty after n calls exactly when it held at most 10n messages |
| `Addresses.FirstOccurrencesExact` | identity/extension_credentials.go:38 | dropping repetitions keeps every element exactly once |
| `Addresses.FirstOccurrencesOrdered` | identity/extension_verify.go:62-73 | the first occurrences of any beginning are a beginning of all of them |
| `Addresses.CollectedKeys` | identity/extension_verify.go:62-82 | the (value, via) pairs collected are the first occurrences of those visited |
| `Addresses.CollectedRecords` | identity/extension_verify.go:62-73 | every record collected is the existing one with its pair, or one that was visited if there is none |
| `Addresses.CollectedSettled` | identity/extension_verify.go:57-73 | a list is left as it is exactly when its pairs are the first occurrences of those visited |
| `Addresses.CollectedReorders` | identity/extension_verify.go:57-73 | collecting again only reorders a list exactly when its pairs are those visited, in any order |
| `Addresses.OrderIrrelevant` | identity/extension_recovery.go:36-47 | as a set the records do not depend on the order of the visits |
| `IdentityValidation.Has` | identity/extension_verify.go:75-82 | finds the first record with the same value and channel |
| `IdentityValidation.SchemaExtensionCredentials.Run` | identity/extension_credentials.go:25-43 | the identifiers so far, without repetitions, become the password's identifiers; its config is kept |
| `IdentityValidation.SchemaExtensionVerification.AppendAddress` | identity/extension_verify.go:62-73 | appends the existing or the new record unless its pair is there already |
| `IdentityValidation.SchemaExtensionVerification.Run` | identity/extension_verify.go:23-55 | accepts exactly an email by email, a phone number by phone, or no channel, and appends accordingly |
| `IdentityValidation.SchemaExtensionRecovery.Run` | identity/extension_recovery.go:22-51 | the same for recovery addresses, by email only |
| `IdentityValidation.ExtensionRunner.Visit` | schema/extension.go:86-97 | one visit runs the extensions in order until one fails, and moves all three collections on by that visit |
| `IdentityValidation.ExtensionRunner.VisitAll` | schema/extension.go:86-97 | after all visits: which were accepted, and the three collections |
| `IdentityValidation.ExtensionRunner.Finish` | schema/extension.go:123-130 | the collected addresses replace the identity's |
| `IdentityValidation.Validate` | schema/validator.go:37-76 | the identity and the error after validation; addresses change only if the schema accepts the document, with whatever visits it tolerates |
| `IdentityValidation.VerifiableList` | identity/extension_verify.go:23-82 | after validation the verifiable addresses are exactly the visited values with a channel whose format they have, once each, those of any first visits first, each the existing record or a new one of the identity, pending and unverified |
| `IdentityValidation.RecoveryList` | identity/extension_recovery.go:22-65 | the same for recovery addresses, by email only |
| `IdentityValidation.VisitingOrder` | identity/extension_verify.go:23-82 | visiting the same trait values in any other order yields the same sets of addresses |
| `IdentityValidation.FormatsEnforced` | identity/extension_verify.go:27-54 | the extensions accept a value exactly if the channels it is used for are known and it has their formats |
| `IdentityValidation.ValidationErrors` | schema/validator.go:37-76 | exactly when validation fails, and with which error; a schema that tolerates nothing accepts exactly if all formats hold |
| `IdentityValidation.IdentifierList` | identity/extension_credentials.go:25-43 | after validation, failed or not, the password has each lower-cased identifier visited exactly once, if any, and keeps its config; all other credentials are kept, and a failure keeps the addresses |
| `IdentityValidation.SettledIsFixpoint` | identity/validator.go:49-55 | validation leaves an identity as it is exactly when its identifiers and addresses are in step with its traits |
| `IdentityValidation.ValidatedAgain` | identity/validator.go:49-55 | validation is idempotent |
| `IdentityStore.CleanIsFixpoint` | persistence/sql/persister_identity.go:113-160 | credentials come out of a write as they went in, up to the order of identifiers, exactly if they have a config and only normalised, non-empty identifiers |
| `IdentityStore.WrittenExactly` | persistence/sql/persister_identity.go:113-157 | what a write stores and what the caller holds then, member by member |
| `IdentityStore.RefusedExactly` | persistence/sql/persister_identity.go:136-144 | a write is refused exactly if some identifier, as it would be stored, is empty |
| `IdentityStore.CredentialsInStep` | identity/extension_credentials.go:25-43 | credentials survive validation and a write, up to the order of identifiers, exactly if they are clean and the password's identifiers are those of the traits as the store writes them |
| `IdentityStore.InStepIsFixpoint` | identity/validator.go:49-55 | an identity comes out of validation and a write as it was, but for the order of addresses and identifiers, exactly if these are, up to order, in step with its traits |
| `IdentityStore.InOrderIsFixpoint` | identity/validator.go:49-55 | it comes out exactly as it was if and only if they are also in the order of the traits |
| `IdentityStore.RestoredInOrder` | identity/manager.go:91-107 | what is stored of any valid identity is in step and in order |
| `IdentityStore.HandedBackInStep` | persistence/sql/persister_identity.go:354-402 | whatever order the store hands things back in, the identity stays in step |
| `IdentityManager.CredentialsEqual` | identity/credentials.go:148-173 | true exactly when both maps have the same keys with the same configs and identifiers, although only one map's keys are looked up |
| `IdentityManager.SameIsEquivalence` | identity/credentials.go:148-173 | that comparison is reflexive, symmetric and transitive |
| `IdentityManager.Manager.Create` | identity/manager.go:63-70 | the caller's identity, the error and the store after the call; exactly when one more identity is stored, with schema "default" and state "active" if none was given |
| `IdentityManager.Manager.Write` | persistence/sql/persister_identity.go:113-160 | what a write stores and leaves in the caller's identity, and exactly when it is refused |
| `IdentityManager.Manager.RequiresPrivilegedAccess` | identity/manager.go:72-89 | refuses exactly an unprivileged change of credentials or verifiable addresses, nil and empty lists counting as equal, and then resets the caller's identity |
| `IdentityManager.Manager.Update` | identity/manager.go:91-107 | the caller's identity, the error and the store after the call; exactly when it is refused, and that a refusal leaves the store alone and hands the caller the stored identity |
| `IdentityManager.Manager.UpdateSchemaID` | identity/manager.go:109-126 | exactly when it is refused or not found; an error leaves the store alone, a success stores the identity as it is valid under the new schema and touches no other |
| `IdentityManager.Manager.SetTraits` | identity/manager.go:128-147 | the validated copy with the new traits, allowed by privilege or by unchanged protected fields, or the error; the store is not touched |
| `IdentityManager.Manager.UpdateTraits` | identity/manager.go:149-156 | the error and the store after the call; an error leaves the store alone, a success stores the new traits and touches no other identity and neither schema nor state of this one |
| `IdentityManager.StoredAreFixpoints` | identity/manager.go:63-126 | in every run each stored identity is valid and comes out as it was when it is validated and stored again, but for the order in which the store handed addresses and identifiers back |
| `IdentityManager.UnprivilegedSchemaUpdate` | identity/manager.go:109-126 | so an unprivileged schema update, which compares no protected field, changes nothing but at most the order of addresses and identifiers |
| `IdentityManager.SavingUnchanged` | identity/manager.go:72-107 | in every run, storing an identity just as it was read is refused without privileges exactly when its verifiable addresses are not in the order of the traits or its password identifiers are not those of the traits, in order and character by character |
| `IdentityReadBack.AddressOrderRefused` | identity/manager.go:81-87 | an input for that: two addresses handed back the other way round |
| `IdentityReadBack.IdentifierOrderRefused` | identity/credentials.go:167-169 | another: two password identifiers handed back the other way round |
| `IdentityReadBack.TrimmedRefused` | persistence/sql/persister_identity.go:138-142 | a third: any password identifier that the store writes differently |
| `IdentityManager.ProtectedForever` | identity/manager.go:72-156 | no run of unprivileged calls changes stored credential configs, identifiers or verifiable addresses; only the store rewrites address records or reorders |
| `Continuity.SessionGetString` | x/cookie.go:23-47 | the value of the first cookie that decodes and has the key |
| `Continuity.FirstDecides` | x/cookie.go:36-47 | the first cookie that decodes and has the key decides |
| `Continuity.ManagerCookie.SessionPersistValue` | x/cookie.go:11-19 | the cookie handed out is the one sent, with the value set, or a new one |
| `Continuity.ManagerCookie.SessionUnsetKey` | x/cookie.go:71-80 | the cookie handed out is the one sent without the key, and none if none was sent |
| `Continuity.ManagerCookie.Sid` | continuity/manager_cookie.go:95-106 | the identifier a request carries under a name; otherwise the key is removed from the cookie |
| `Continuity.ManagerCookie.Pause` | continuity/manager_cookie.go:39-61 | the error, the cookies issued and the store after the call |
| `Continuity.ManagerCookie.Continue` | continuity/manager_cookie.go:63-93 | the container or the error, the cookies issued and the store after the call |
| `Continuity.ManagerCookie.Abort` | continuity/manager_cookie.go:129-147 | the error, the cookies issued and the store after the call |
| `Continuity.RunKeeps` | continuity/manager_cookie.go:39-147 | every run keeps: cookies map names to identifiers drawn for these names, stored containers are as paused, the store balances |
| `Continuity.ResumedOnce` | continuity/manager_cookie.go:63-93 | in every run each container is resumed at most once, never after an abort, and only under its own name, in time and for its identity |
| `Continuity.StoreAccounts` | continuity/manager_cookie.go:39-147 | in every run the store holds what was saved and neither resumed nor aborted |
| `Continuity.ContinueSucceeds` | continuity/manager_cookie.go:63-93 | exactly when a Continue succeeds, in terms of what the Pause was asked for |
| `Continuity.ContinueReturns` | continuity/container.go:48-68 | a Continue returns the container paused under that name, with the paused identity and payload, at most the lifespan after the Pause, and for the same identity when one is named |
| `Continuity.NoEarlyExpiry` | continuity/container.go:48-61 | no Continue fails for expiry up to one second before the lifespan ends |
| `Continuity.PauseThenContinue` | continuity/manager_cookie.go:39-93 | whatever happens in between, the cookie of a Pause resumes its container, with name, identity and payload, in time unless it was resumed or aborted before |
| `Continuity.CookiesHandedOut` | x/cookie.go:11-80 | a Pause adds its name to the browser's cookie, a successful Continue or an Abort takes it out, and all other names stay |
| `Continuity.PauseExactly` | continuity/manager_cookie.go:39-61 | the error of every Pause, what it leaves, and the container a success stores |
| `Continuity.ContinueFails` | continuity/manager_cookie.go:63-127 | why a Continue fails, in the order of the checks, and what a failure leaves of store and cookie |
| `Continuity.AbortExactly` | continuity/manager_cookie.go:129-147 | the error of every Abort, and the container it removes |
| `Assurance.DetermineAAL` | identity/aal.go:3-35 | the level depends on the set of methods alone: first factors are worth 1, with a second factor 2, a second factor alone 0 |
| `Assurance.LevelGrows` | identity/aal.go:3-35 | more methods never make a lower level |
| `Assurance.LevelsByName` | identity/aal.go:10-32 | the level of every single method and of every pair, by name |
| `SessionProtocol.StepKeeps` | session/persistence.go:21-57 | every step, a login on an existing session among them, keeps tokens unique and levels determined, lets sessions only grow and dead ones stay dead |
| `SessionProtocol.LevelIsDetermined` | session/session.go:99-146 | in every run each stored session has the level its methods give it |
| `SessionProtocol.SessionOnlyGrows` | session/manager_http.go:205-216 | over any run a session keeps token and owner, its methods and level never shrink, and once revoked or expired it stays so |
| `SessionProtocol.SatisfactionStays` | session/manager_http.go:176-203 | a satisfied request stays satisfied while the identity gains no credentials |
| `SessionProtocol.SatisfiedExactly` | session/manager_http.go:176-203 | "highest_available" is satisfied exactly if the session has a first factor whenever the identity has one, and then a second one whenever the identity has one; "aal1" exactly with a first factor |
| `SessionProtocol.RowsMade` | session/session.go:99-146 | the session after a first login, after added methods and after a login on top of it, field by field |
| `SessionProtocol.FailuresStoreNothing` | session/session.go:132-135 | nothing is stored for a disabled identity, a missing session or when the store fails |
| `SessionProtocol.RejectedForever` | session/manager_http.go:132-152 | a token is rejected in all continuations exactly when it cannot be drawn or its session is deleted, revoked or expired |
| `SessionProtocol.RejectedStays` | session/session.go:159-161 | unless some identity is enabled again, a drawn token once rejected is rejected for ever |
| `SessionProtocol.SessionLife` | session/session.go:159-161 | an active session is accepted after any run exactly if nothing in it revoked or deleted the session, the deadline set by the last login that still found it served has not passed, and its identity is enabled |
| `SessionProtocol.DeadlineIsSet` | selfservice/flow/login/hook.go:69-72 | a deadline that moved is the end of the lifespan of a login in the run; without one it has not moved |
| `SessionProtocol.IssuedLife` | session/session.go:113-146 | so an issued session is accepted exactly until a revocation, a deletion or the end of the lifespan of the last login on it, and while its identity is enabled |
| `SessionProtocol.LoginExtends` | selfservice/flow/login/handler.go:533-591 | a token that a login refreshed outlives the lifespan it was issued with |
| `SessionProtocol.DisabledReturns` | session/session.go:159-161 | a token rejected because its identity is disabled is accepted again once that is enabled |
| `SessionManager.Session.SetAuthenticatorAssuranceLevel` | session/session.go:104-111 | the level becomes that of the session's methods |
| `SessionManager.Session.Activate` | session/session.go:132-146 | refused exactly for a disabled identity, leaving the session as it is; otherwise the whole new session |
| `SessionManager.NewActiveSession` | session/session.go:113-120 | a new active session with one method, or none for a disabled identity |
| `SessionManager.ManagerHTTP.UpsertAndIssueCookie` | session/manager_http.go:48-103 | the session is stored before the cookie with its token is handed out; the error and the rows if either fails |
| `SessionManager.ManagerHTTP.Issue` | session/manager_http.go:48-58 | the store, the cookie or the error after a login without a session; nothing is saved for a disabled identity |
| `SessionManager.ManagerHTTP.Reauthenticate` | selfservice/flow/login/handler.go:533-591 | a login on the session a request carries: exactly for a refresh or a higher level is that session activated anew, under its old token and with one more method |
| `SessionManager.ManagerHTTP.SessionAddAuthenticationMethod` | session/manager_http.go:205-216 | the session's row with the methods appended and its level determined again, or the error if it is missing or the store fails |
| `SessionManager.ManagerHTTP.FetchFromRequest` | session/manager_http.go:132-152 | succeeds exactly when the store can be read and the token extracted from the request is accepted, with the session of that token; the error otherwise |
| `SessionManager.ManagerHTTP.PurgeFromRequest` | session/manager_http.go:154-174 | the error and the rows after the call, for every failure of the store or the cookie |
| `SessionManager.ManagerHTTP.DoesSessionSatisfy` | session/manager_http.go:176-203 | the answer for "aal1", "highest_available" and unknown requests; "aal1" below level 1 ends as an unknown request |
| `SessionManager.BearerExactly` | session/helper.go:8-16 | an `Authorization` header carries a token exactly if it is "bearer" in any case, one blank and the token, with no other blank |
| `SessionManager.ExtractsExactly` | session/manager_http.go:106-130 | which of the headers and the cookie a request's token comes from |
| `SessionManager.HeadersPrevail` | session/manager_http.go:107-115 | what else a request with `X-Session-Token` or `X-Session-Cookie` carries does not matter |
| `SessionManager.PurgesExactly` | session/manager_http.go:154-174 | which token a purge revokes, and its error |
| `SessionManager.PurgedForever` | session/manager_http.go:106-174 | after a successful purge the same request is refused for ever exactly when it carries the purged token to the fetch, or one that was gone before |
| `SessionManager.LogoutIsFinal` | session/manager_http.go:154-174 | so a purge is final for a request with only a bearer token or only the session cookie |
| `SessionManager.PurgeMissesCookie` | session/manager_http.go:106-174 | a request with both is still served after a successful purge |
| `OidcCredentials.PublishToken` | identity/identity.go:338-366 | one pass adds one kind of token to every provider, and fails exactly if one of them does not decrypt |
| `OidcCredentials.Declassify` | identity/identity.go:334-372 | the token-major loops amount to publishing every provider on its own, in the same order, and succeed exactly if every token decrypts |
| `OidcCredentials.PublishedMembers` | identity/identity.go:335-364 | what is published of a provider: the three tokens decrypted, subject and provider copied, and nothing else |
| `OidcCredentials.Identity.WithDeclassifiedCredentialsOIDC` | identity/identity.go:321-378 | a new identity with every other config blanked and the OpenID Connect config published; the receiver is not changed |
| `Ciphers.HexRoundTrip` | cipher/aes.go:41-58 | hexadecimal decoding undoes encoding |
| `Ciphers.HexDigits` | cipher/aes.go:41 | every byte is written as two lower-case hexadecimal digits, the upper half first |
| `Ciphers.HexDecodes` | cipher/aes.go:58-61 | exactly the texts of an even number of hexadecimal digits, in either case, decode |
| `Ciphers.DecryptAES` | cipher/aes.go:45-70 | the message of the first key that opens the ciphertext, or a failure |
| `Ciphers.DecryptXChaCha` | cipher/chacha20.go:54-87 | the same, and a panic exactly on hexadecimal texts of 24 to 47 digits |
| `Ciphers.ShortTextsPanic` | cipher/chacha20.go:75-79 | the inputs it panics on: all texts of 12 to 23 bytes in hexadecimal |
| `Ciphers.NothingRecovered` | cipher/chacha20.go:70-86 | decryption finds nothing exactly when no key opens the ciphertext |
| `Ciphers.DecipheredExactly` | cipher/aes.go:45-70 | what decryption makes of every text |
| `Ciphers.EncryptedText` | cipher/chacha20.go:29-51 | what encryption makes of every message, without a key too |
| `Ciphers.Rotation` | cipher/aes.go:29-70 | what was encrypted under the first key deciphers to itself under every list that still holds this key, anywhere, and fails under all others |
| `Ciphers.RotationOfBoth` | cipher/chacha20.go:29-87 | the same for both ciphers with their nonces of 12 and 24 bytes |
| `Ciphers.SecretsCipher` | driver/config/config.go:653-671 | returns exactly when the 32-byte secrets come first and the others are empty, or there are none, and then the 32-byte secrets in order |
| `Ciphers.ShortSecretPanics` | driver/config/config.go:653-671 | a list it panics on: a short secret before a full one |
| `JsonNumber.IsValidNumber` | x/json_number.go:6-63 | true for exactly the strings of the JSON number grammar |
| `SchemaKeys.ComputeKeyPositions` | schema/schema.go:64-74 | appends the keys of the schema below the parents, although all children share and overwrite one backing array |
| `SchemaKeys.LeavesExact` | schema/schema.go:64-74 | the traversal reaches exactly the leaves of the schema tree |
| `SchemaKeys.LeavesOrdered` | schema/schema.go:64-74 | it reaches them in document order, each once |
| `SchemaKeys.KeysInOrder` | schema/schema.go:64-74 | the n-th key is the joined, escaped path of the n-th leaf |
| `SchemaKeys.ParseKey` | schema/schema.go:68-72 | splitting a key at unescaped dots recovers its path exactly when no name but the last ends with a backslash |
| `SchemaKeys.DistinctKeys` | schema/schema.go:64-74 | distinct leaves get distinct keys when no property that holds an object has a name ending with a backslash |
| `SchemaKeys.BackslashCollides` | schema/schema.go:68-72 | two different paths with the same key |

## Left out

- The SQL persisters beyond their contracts and what is modelled of writing and reading identities: uniqueness of identifiers across identities counts as a write the store refuses, and the text of traits and configs is kept.
- Credentials filed under a key other than their own type, which the store would file under that type, are not part of this model.
- Cryptographic primitives, cookie signing, the JSON schema engine, JSON paths and SMTP: parameters, with the facts listed above.
- Argon2id's own refusal of zero iterations or zero parallelism belongs to the key derivation and is not part of this model.
- Scanning: blanks other than space and tab before a number are not skipped as Go does.
- Injectivity of the hash decoders: scanning ignores what follows a number, so only the direction from printing to parsing holds.
- Continuity.ManagerCookie.Continue: one atomic step; two Continues interleaved between reading and deleting the container are not covered.
- SessionManager.ManagerHTTP.SessionAddAuthenticationMethod: one atomic step, so a revocation between its read and its write is not covered.
- SessionManager.ManagerHTTP.Reauthenticate: one atomic step from fetching the session to storing it again; the expiry of the flow, its hooks and a revocation in between are not covered, and a login of another identity is an `Issue`.
- SessionManager.ManagerHTTP.UpsertAndIssueCookie: does not model the cookie's attributes and the renewal of the CSRF token, which only set headers.
- SessionManager.ManagerHTTP.Issue: does not model the cookie's attributes and the renewal of the CSRF token, which only set headers.
- SessionManager.ManagerHTTP.FetchFromRequest: does not model the cookie library's per-request cache.
- IdentityManager.Manager.Create: the store validates the document once more without the extensions; a failure there counts as a write the store refuses.
- IdentityManager.Manager.Write: configs that a write may already have filled in the caller's identity before it fails are not modelled.
- IdentityManager.Manager.Update: whether validation errors are exposed to the caller changes only the error's type.
- OidcCredentials.Declassify: documents are lists of objects with string members; the order of members within an object is not modelled.
- The cleanup option of continuity, which nothing reads, and the logout token and authentication time of sessions, which nothing here depends on.
- The cache of ordered schema keys, paging of schemas, HTTP handlers, self-service flows other than the login on an existing session, hooks, mutexes, and Go's sharing of maps between shallow copies of an identity: plumbing, or only easy members.
