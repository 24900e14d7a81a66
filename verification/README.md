# Verified model of the TBOX provisioning service

The provisioning service writes a vehicle's VIN once, binds it to the ECU's unique id, records configuration and
production data beside it, and then locks all of it. It must do so on a device that can lose power at any moment,
with several client threads calling at once. This project models the service, its protected storage, the file store
underneath, the VIN validator and the composition root that owns them, and proves what they keep.

## Layers

| file | what it holds |
|---|---|
| `types.dfy` | records, states and error codes |
| `vin.dfy`, `vin_errors.dfy` | the validator with its loops; which typing errors the check digit catches |
| `codec.dfy` | the record serializers, on JSON values |
| `file_store.dfy` | the key-value store on files: a class, its micro-steps with crashes, the atomic map it stands for |
| `provisioning.dfy` | the state of the service and every call twice: run whole, and cut into micro-steps |
| `protected_storage.dfy`, `prov_service.dfy` | the two classes over the file store, each method proved to do what the call does as a whole |
| `crash_safety.dfy` | one call inside at a time, a crash and restart possible between any two micro-steps |
| `concurrency.dfy`, `threaded_safety.dfy` | any number of threads and the mutex; serializability; projection onto the crash-prone core; shutdown |
| `durable.dfy` | the threads on the files themselves: other threads and crashes between any two file operations of a save |
| `isolation.dfy` | pairs of runs that differ only in the UID or only in the serial number |
| `outcomes.dfy` | fault outcomes, recovery, the worth of the readback |
| `application.dfy` | lifetimes of the components |

The layers are tied together: the service class is proved against `Provisioning.Whole`'s per-call functions on the
records its files decode to; `Provisioning.MicroStepsRunTheCall` shows that the micro-steps, uninterrupted, are those
functions; `ThreadedSafety.RunProjects` shows that every threaded run is a run of the core; and
`Durable.FilesRefineThreads` shows that a run cut at any file operation is, to the records, a threaded run whose saves
are single steps.

What is outside the service is written out rather than named: the documents in the files (`Codec.BindingDocument`,
`Codec.ConfigDocument`, `Codec.ProductionDocument`), the files themselves (`Protected.RecordsByFile`), and the tables of
the validator.

Everything a call gets from outside is a parameter (`Provisioning.Env`): the clocks, the UID and SN providers, whether
each load gives the stored value or nothing, and how each save goes (`FileStore.SaveFault`: sound, failing before or
at the rename, or writing other bytes unnoticed while reporting success). Results are for every value of these unless
a lemma names an assumption. They are fixed when a call is made, which loses nothing since they are arbitrary.

## What the proofs found

- The conflict error 1005 that the interface documents for `authorize_rewrite` cannot occur on a device that started
  empty, with honest binding saves and a UID provider that gives documented codes: no stored binding ever has `locked`
  set, whether or not `initialize` can read the protection key. `authorize_rewrite` and `write_vin` are the same
  function there.
- A reader may see VIN_WRITTEN, but only of a call that does not complete: its second save failed or the process ended
  in between. No continuation, crashes included, ever marks that call's binding BOUND.
- VIN_WRITE_FAILED is the one code of `write_vin` that does not tell what is on disk: a failed first save leaves the
  old binding and a failed second one the new VIN as VIN_WRITTEN (`Outcomes.WriteFailedIsAmbiguous`).
- `write_vin` can answer SUCCESS with nothing written in exactly one case: a UID read that fails with the code
  SUCCESS, which the default constructor of `UidReadResult` produces, is handed on as the answer
  (`Outcomes.SuccessWithoutVinHappens` gives the state).
- The lock of a device survives a restart exactly when `initialize` can read the "protection" key; an unreadable key is
  taken for an open lock (`CrashSafety.FlagRestoredIffLoaded`).
- `clear_all` leaves memory unlocked and the disk locked exactly when its last removal fails on a locked disk
  (`Protected.ClearAgreesIffRemoved`).
- A save that reports success has stored its value exactly when the stream write, whose state is never checked,
  delivered it (`FileStore.ReportedSaveIsStoredIffBytesArrive`).
- `write_vehicle_config` ignores its last save, so its SUCCESS does not imply that the record is marked verified
  (`Outcomes.ConfigOutcome`).
- The state FAILED is never stored; and while saves are honest, a readback fails only by not loading.
- Where a character has no value the check-digit rule alone accepts an X at the check position; only the character-set
  rule before it keeps such strings out.
- A failed `ProvService::initialize` leaves a service object whose store and providers are gone, until the next
  cleanup or start; nothing can call it.

## Assumptions

Of the machine: the shutdown flag is sequentially consistent; a rename that has happened is durable; characters follow
the "C" locale; printing and parsing JSON are inverse; a start of the application comes only when it is down.

Of single calls, each only where a lemma names it:

- `ProtectionLoads`: `initialize` reads the protection key faithfully. The freeze needs it and nothing else.
- `HonestRecords`: the two saves of a call never report success over other bytes. The shape of stored bindings, the
  absence of 1005, what readers see, the rewrite counter and the verified mark need it, and not the protection load.
- `HonestSaves`: the same of the save of the protection key too. With `ProtectionLoads` it makes `Honest`, which "locked
  implies bound" and the agreement of the flag with the disk need.
- `FaithfulBindings`: `HonestRecords`, and the existing binding loads when a call looks for it; for the counter.
- `DocumentedUidFailure`: a failing UID provider gives one of the codes 1008, 1009 and 1010.

## Model

| member | source | states |
|---|---|---|
| `Vin.LegalIffKnown` | src/vin_validator.cpp:31-61 | the transliteration table lists exactly the characters the character-set rule admits |
| `VinErrors.LegalCharacters` | src/vin_validator.cpp:31-41 | what is let through is exactly the digits and the letters but I, O and Q, in either case |
| `VinErrors.LetterValues` | src/vin_validator.cpp:56-61 | every letter is worth what the table says, small letters like capitals |
| `VinErrors.DigitValues` | src/vin_validator.cpp:56-61 | every digit is worth itself |
| `VinErrors.CheckDigitFormula` | src/vin_validator.cpp:54-80 | the recursive sum is the sixteen weighted products written out, and a string is valid iff its ninth character is that sum's remainder in 0123456789X |
| `Vin.CheckCharset` | src/vin_validator.cpp:31-41 | the early-exit loop decides whether every character is a letter or digit other than I, O, Q |
| `Vin.CalculateCheckDigit` | src/vin_validator.cpp:54-80 | the accumulating loop gives the check character of the weighted sum and leaves through the unknown-character exit only for illegal characters |
| `Vin.CheckDigit` | src/vin_validator.cpp:43-52 | decides for every string: other lengths fail, legal characters follow the check-digit rule, and with an unknown character only an X at position 9 passes |
| `Vin.Validate` | src/vin_validator.cpp:10-12 | length, character set and check digit together, for every string |
| `Vin.GetValidationError` | src/vin_validator.cpp:14-25 | the message is empty exactly for valid VINs and otherwise names the first rule broken |
| `VinErrors.SumTightBounds` | src/vin_validator.cpp:63-73 | the sum stays within 0..801 and reaches both ends |
| `VinErrors.CheckCharacterExistsAndIsUnique` | src/vin_validator.cpp:43-80 | whatever the other sixteen legal characters, exactly one of 0-9 and X (up to case) validates |
| `VinErrors.ValidationIgnoresCase` | src/vin_validator.cpp:10-80 | a string and its upper-case form are both valid or both not |
| `VinErrors.DocumentedVins` | tests/test_vin_validator.cpp:14-37 | the tables give all nine verdicts the validator's tests expect: lengths 16, 18 and 0, the letters I, O and Q, a wrong check digit and two valid VINs |
| `VinErrors.ExamplesWithPAndR` | src/vin_validator.cpp:56-61 | two VINs that are valid only with the table's values of P and R |
| `VinErrors.SingleCharacterErrors` | src/vin_validator.cpp:54-80 | one wrong character goes unnoticed iff it is worth the same, or at the check position is the same up to case |
| `VinErrors.SwapsAwayFromCheckDigit` | src/vin_validator.cpp:54-80 | exchanging two characters outside position 9 is detected iff weights and values both differ; adjacent ones iff values differ |
| `VinErrors.SwapEightAndNine` | src/vin_validator.cpp:43-80 | exchanging positions 8 and 9 goes unnoticed, for different characters, iff both are digits |
| `VinErrors.SwapNineAndTen` | src/vin_validator.cpp:43-80 | exchanging positions 9 and 10 goes unnoticed, for different characters, iff they are X and 4 |
| `Codec.BindingRoundTrip` | src/protected_storage.cpp:188-219 | decoding an encoded binding gives it back with times in whole seconds; a second round trip is exact |
| `Codec.SecondsTruncate` | src/protected_storage.cpp:195-198 | a stored time loses less than a second, towards the epoch |
| `Codec.BindingReadableIff` | src/protected_storage.cpp:203-219 | a document decodes iff every field is there with its type, only "sn" being optional, and then to just these fields, numbers wrapping at the width of theirs |
| `Codec.OldSnapshotHasEmptySn` | src/protected_storage.cpp:208-210 | a snapshot without "sn" decodes to the same binding with an empty sn |
| `Codec.BindingEncodingInjective` | src/protected_storage.cpp:188-201 | two bindings are stored alike iff they agree up to fractions of a second |
| `Codec.ConfigReadableIff` | src/protected_storage.cpp:229-236 | which documents are configurations, and which bytes, time and mark they decode to |
| `Codec.ProductionReadableIff` | src/protected_storage.cpp:247-255 | which documents are production records, and what they decode to |
| `Codec.ConfigRoundTrip` | src/protected_storage.cpp:221-236 | round trip of configurations, bytes included |
| `Codec.ProductionInfoRoundTrip` | src/protected_storage.cpp:238-255 | round trip of production records |
| `FileStore.KeyPathInjective` | include/framework_store.h:58-58 | different keys have different files |
| `FileStore.TempPathIsNoKeyPath` | src/framework_store.cpp:103-113 | a temporary name is never the file of any key |
| `FileStore.FilesRefineAtomicMap` | src/framework_store.cpp:102-131 | every run of saves and removals, with failures and crashes between open, write and rename, is a run of an atomic map |
| `FileStore.InterruptedSave` | src/framework_store.cpp:102-131 | a save cut anywhere leaves its key whole, old or new, and every other key untouched |
| `FileStore.SaveIsItsMicroSteps` | src/framework_store.cpp:102-131 | the whole save is its open, write and rename in order, for every fault |
| `FileStore.Store.AtomicWrite` | src/framework_store.cpp:102-131 | the loop builds a proper temporary name; success replaces the file and leaves no temporary one, a failed rename leaves only that, a failed open nothing |
| `FileStore.Store.Save` | include/framework_store.h:56-62 | what a reader of any key finds afterwards |
| `FileStore.Store.Fetch` | include/framework_store.h:64-81 | the value of a key whose file is there, readable and well formed |
| `FileStore.Store.Exists` | src/framework_store.cpp:33-36 | whether the key's file is there; a loadable key exists |
| `FileStore.Store.Remove` | src/framework_store.cpp:38-46 | the key is gone if the removal works, other keys are untouched |
| `Protected.RecordsByFile` | src/protected_storage.cpp:15-159 | which file each record is read from, and that protection.json means locked iff it holds "1" |
| `Protected.ProtectedStorage.Initialize` | src/protected_storage.cpp:15-32 | a readable protection key decides the flag: locked iff its text is "1"; otherwise the flag keeps its value |
| `Protected.ProtectedStorage.ReadVehicleBinding` | src/protected_storage.cpp:34-52 | the decoded binding, or nothing |
| `Protected.ProtectedStorage.WriteVehicleBinding` | src/protected_storage.cpp:54-72 | refused under protection, STORAGE_ERROR when the save fails; else the key holds the encoded record and only the binding record changes |
| `Protected.ProtectedStorage.ReadVehicleConfig` | src/protected_storage.cpp:74-87 | the decoded configuration, or nothing |
| `Protected.ProtectedStorage.WriteVehicleConfig` | src/protected_storage.cpp:89-107 | refused under protection, STORAGE_ERROR when the save fails; else the key holds the encoded record and only the configuration record changes |
| `Protected.ProtectedStorage.ReadProductionInfo` | src/protected_storage.cpp:109-122 | the decoded production record, or nothing |
| `Protected.ProtectedStorage.WriteProductionInfo` | src/protected_storage.cpp:124-142 | refused under protection, STORAGE_ERROR when the save fails; else the key holds the encoded record and only the production record changes |
| `Protected.ProtectedStorage.SetWriteProtection` | src/protected_storage.cpp:144-159 | a sound save leaves the text "1" or "0"; the flag in memory follows only when the save reports success |
| `Protected.ProtectedStorage.ClearAll` | src/protected_storage.cpp:166-182 | each record goes if its removal works; the flag in memory is cleared always |
| `Protected.LockedInMemoryIsOnDisk` | src/protected_storage.cpp:15-182 | after every sequence of direct storage calls, failing removals included, locked in memory is locked on disk |
| `Provisioning.MicroStepsRunTheCall` | src/prov_service.cpp:75-566 | for every call, state and environment the micro-steps run to their end do what the call does as a whole |
| `Service.ProvService.Initialize` | src/prov_service.cpp:75-90 | fields and records after initialize, each attempt starting from a fresh storage |
| `Service.ProvService.InitializeStorage` | src/prov_service.cpp:397-400 | a new storage with the flag the disk gives it |
| `Service.ProvService.BeginShutdown` | src/prov_service.cpp:92-96 | raises the flag and changes nothing else |
| `Service.ProvService.WriteVin` | src/prov_service.cpp:98-118 | for every fault, the answer, fields and decoded files are those of the call that the crash and thread results are about |
| `Service.ProvService.AuthorizeRewrite` | src/prov_service.cpp:351-390 | the same, with the check of the stored lock before the UID is read |
| `Service.ProvService.ExecuteVinBindingFlow` | src/prov_service.cpp:402-475 | the chain of UID read, two saves, readback and protection |
| `Service.ProvService.EstablishBinding` | src/prov_service.cpp:497-543 | the binding built field by field, saved as VIN_WRITTEN and again as BOUND |
| `Service.ProvService.VerifyWrite` | src/prov_service.cpp:545-566 | success iff the stored binding loads and holds the VIN |
| `Service.ProvService.WriteVehicleConfig` | src/prov_service.cpp:193-270 | the same for configurations, both saves and the readback between them |
| `Service.ProvService.WriteProductionInfo` | src/prov_service.cpp:272-349 | the same for production records |
| `Service.ProvService.ReadVin` | src/prov_service.cpp:120-133 | the stored VIN, or empty |
| `Service.ProvService.ReadBinding` | src/prov_service.cpp:135-176 | the stored binding, its empty sn completed by the SN provider only |
| `Service.ProvService.GetProvisionState` | src/prov_service.cpp:178-191 | the stored state, or NONE |
| `CrashSafety.FrozenForever` | src/protected_storage.cpp:15-159 | once "1" is on disk nothing on disk changes in any continuation, given that initialize reads the protection key |
| `CrashSafety.LockedImpliesBoundEverywhere` | src/prov_service.cpp:402-543 | at every crash point "1" on disk means a BOUND binding with a valid VIN and a UID the provider gave when it was asked |
| `CrashSafety.StoredBindingsAreProvisioned` | src/prov_service.cpp:497-530 | at every crash point a persisted binding has a valid VIN, a UID the provider gave, empty sn and last_error, retry_count 0, locked false and state VIN_WRITTEN or BOUND; honest binding saves suffice |
| `CrashSafety.AuthorizeRewriteIsWriteVin` | src/prov_service.cpp:351-390 | in every state reachable from an empty store both calls give the same answer and the same store |
| `CrashSafety.ConflictIsNeverReported` | src/prov_service.cpp:369-386 | VIN_CONFLICT_UNAUTHORIZED is never returned on runs from an empty store |
| `CrashSafety.FlagAgreesWithDisk` | src/protected_storage.cpp:15-32 | between calls of an initialized service the flag in memory is the one on disk |
| `CrashSafety.AnsweredSnIsTheProviders` | src/prov_service.cpp:148-175 | read_binding answers with the stored binding and the provider's sn or none, never the UID |
| `CrashSafety.ReadersSeeNoCompletingWrite` | src/prov_service.cpp:120-191 | a reader that answers VIN_WRITTEN, on any initial disk and whatever fails or crashes, has read the binding of a call that no continuation marks BOUND |
| `CrashSafety.RewriteCounterIsHistory` | src/prov_service.cpp:497-530 | rewrite_count is, modulo 2^32, one less than the trailing run of equal VINs among first-stage saves that reached disk |
| `CrashSafety.VerifiedMeansReadBack` | src/prov_service.cpp:235-267 | a configuration marked verified holds the bytes that the very call that wrote it had read back equal, across crashes |
| `Concurrency.MutualExclusionRun` | src/prov_service.cpp:75-191 | at most one thread is inside a call, along every interleaving |
| `Concurrency.Serializability` | src/prov_service.cpp:75-191 | fields, disk and results of every interleaving are those of whole calls in the order the mutex was taken |
| `Concurrency.FinishIgnoresShutdown` | src/prov_service.cpp:92-118 | a call past its check ends the same whether or not shutdown begins under way |
| `Concurrency.NoTornReads` | src/prov_service.cpp:120-191 | in every run with honest binding saves an answer VIN_WRITTEN shows the last binding saved before the reader in the serial order, whose writer's second save failed, or a disk that boot found half-written |
| `ThreadedSafety.RunProjects` | src/prov_service.cpp:75-191 | every threaded run is, for the mutex holder, a run of the crash-prone core with the same calls |
| `ThreadedSafety.HolderLeaves` | src/prov_service.cpp:75-191 | the mutex is never stuck: its holder leaves within eleven steps of its own, with the outcome of the whole call |
| `ThreadedSafety.CallIsServed` | src/prov_service.cpp:75-191 | a call made while the mutex is free gets it, returns what the whole call gives and frees the mutex |
| `ThreadedSafety.ThreadsNeverUnfreeze` | src/protected_storage.cpp:15-159 | the freeze holds for any threads, saves, crashes and restarts |
| `ThreadedSafety.ThreadsKeepTheDiskSound` | src/prov_service.cpp:402-543 | locked implies bound and the flag agrees with the disk at every moment of every threaded run |
| `ThreadedSafety.ThreadsKeepBindingsProvisioned` | src/prov_service.cpp:497-530 | the record invariant at every moment of every threaded run, whether or not initialize reads the protection key |
| `ThreadedSafety.ThreadsKeepHistory` | src/prov_service.cpp:193-270 | under threads the rewrite counter counts the holders' saves, and a verified configuration was read back by the call that wrote it |
| `ThreadedSafety.ThreadsReadNoCompletingWrite` | src/prov_service.cpp:120-191 | a thread that answers VIN_WRITTEN has read the binding of a call that no continuation of the threads, crashes included, marks BOUND |
| `ThreadedSafety.QuietForever` | src/prov_service.cpp:92-118 | in a quiet process nothing reaches the disk and every write call answers INVALID_STATE |
| `ThreadedSafety.ShutdownQuietsAnIdleService` | src/prov_service.cpp:92-118 | raising the flag while nobody has passed its check freezes the disk at once |
| `ThreadedSafety.QuiesceBound` | src/prov_service.cpp:92-118 | after beginShutdown only the holder past its check still writes; it leaves the disk and returns the result it would have undisturbed, then the process is quiet and every write returning later is refused |
| `Durable.FilesRefineThreads` | src/framework_store.cpp:102-131 | every run over the files, with other threads, shutdown and crashes between any two file operations, is to the records a run of the same threads whose saves are single steps |
| `Durable.FilesNeverUnfreeze` | src/protected_storage.cpp:15-159 | once protection.json holds "1", no file operation of any later run changes what a record reads as |
| `Durable.LockedFilesAreBound` | src/prov_service.cpp:402-543 | from an empty directory, at every file operation, "1" in protection.json means a BOUND binding with a valid VIN |
| `Durable.FilesAreSerial` | src/prov_service.cpp:75-191 | whenever the mutex is free the files read as whole calls in mutex order leave them |
| `Durable.HolderLeavesItsFiles` | src/framework_store.cpp:102-131 | wherever its save stands, the mutex holder leaves within forty-five file operations and steps, with the outcome of its call |
| `Isolation.UidReachesOnlyTheUidField` | src/prov_service.cpp:402-543 | runs that differ in UIDs agree on all results and records but for ecu_uid |
| `Isolation.SnNeverReachesTheStore` | src/prov_service.cpp:135-176 | runs that differ in serial numbers have the same store and fields, and results equal but for a binding's sn |
| `Outcomes.FlowOutcome` | src/prov_service.cpp:402-543 | for every fault pattern the first failing step gives the code and exactly the steps before it are on disk, every field of the record given |
| `Outcomes.CodeDeterminesPrefix` | src/prov_service.cpp:98-118 | the answers write_vin can give and when it gives those of before the flow; each goes with one prefix of the chain on disk, except VIN_WRITE_FAILED, which covers the prefixes before and after the first save |
| `Outcomes.FlowCodes` | src/prov_service.cpp:402-566 | with any saves, lying ones included, exactly when a write that has its UID answers each of its four codes |
| `Outcomes.AuthorizeRewriteOutcome` | src/prov_service.cpp:351-390 | on every disk, VIN_CONFLICT_UNAUTHORIZED iff another VIN is found locked, and nothing done then; otherwise the call is write_vin |
| `Outcomes.AnswerFixesDiskIff` | src/prov_service.cpp:402-543 | two writes of one record with equal answers leave equal disks iff the answer is not VIN_WRITE_FAILED of an unlocked service of which only one first save went through and changed the disk |
| `Outcomes.WriteFailedIsAmbiguous` | src/prov_service.cpp:497-543 | on an empty store VIN_WRITE_FAILED may leave nothing or a VIN |
| `Outcomes.Recovery` | src/prov_service.cpp:402-475 | from every reachable unlocked state one fault-free write binds, locks if configured, and every reader then finds the VIN, the state BOUND and the whole record |
| `Outcomes.LockedWritesFail` | src/prov_service.cpp:402-475 | from every reachable locked state a write changes nothing and fails |
| `Outcomes.SuccessWithoutVinIff` | src/prov_service.cpp:402-420 | SUCCESS without the VIN on disk happens iff a UID read fails with the code SUCCESS |
| `Outcomes.ReturnedSuccessWasStored` | src/prov_service.cpp:193-349 | under threads, crashes and lying saves every SUCCESS returned by a VIN, configuration or production write was true of the disk when its call ended |
| `Outcomes.ConfigOutcome` | src/prov_service.cpp:193-270 | in every state with honest saves: when it is refused and how, each fault's code and disk, and that SUCCESS is marked verified iff the last, ignored save works |
| `Outcomes.ConfigMismatchIff` | src/prov_service.cpp:193-270 | with any saves, refusals as before, and a mismatch reported iff other bytes were read back |
| `Outcomes.ProductionOutcome` | src/prov_service.cpp:272-349 | in every state with honest saves: when it is refused and how, each fault's code and the record left on disk |
| `Outcomes.ProductionMismatchIff` | src/prov_service.cpp:272-349 | with any save, a mismatch reported iff one of the three texts was read back different, whatever the times |
| `Outcomes.ReadersAnswer` | src/prov_service.cpp:120-191 | in every state all three readers agree on the stored binding if it loads, and otherwise that nothing is there |
| `Outcomes.ProvisionStateTells` | src/prov_service.cpp:178-191 | in every reachable state the answered state is BOUND on every locked device, NONE iff no binding is stored, and otherwise the one on disk |
| `Outcomes.InitializeOutcome` | src/prov_service.cpp:75-90 | its code, its effect on the fields, and that it never touches the disk |
| `Outcomes.InitializeAgain` | src/prov_service.cpp:75-90 | a failed attempt leaves no trace on the next; after a successful one the next does nothing |
| `Outcomes.NewDeviceIsProvisioned` | src/prov_service.cpp:75-118 | an empty device, started and written to by threads without faults, ends with exactly the bound record and, if so configured, the lock |
| `Outcomes.RestartKeepsTheLockIff` | src/protected_storage.cpp:21-25 | a crash at any moment, a restart and a fault-free write leave a locked disk unchanged iff the protection key loads |
| `Application.CleanupIsFinal` | src/prov_application.cpp:196-216 | after one cleanup only a stopped server is left, and a second changes nothing |
| `Application.ProvApplication.Initialize` | src/prov_application.cpp:50-154 | from a stopped application every assignment keeps the lifetime rules and the end is up or down; from a running one they break iff there is a configuration |
| `Application.ProvApplication.Assemble` | src/prov_application.cpp:86-154 | the staged construction from the store on, under every failure |
| `Application.ProvApplication.AssembleOnStore` | src/prov_application.cpp:99-154 | providers and service; a failed service start orphans the service |
| `Application.ProvApplication.StartServing` | src/prov_application.cpp:116-153 | dispatcher and server, released again when the server does not start |
| `Application.ProvApplication.RollbackInitialization` | src/prov_application.cpp:156-178 | releases what the stage says, in reverse order, without breaking the rules |
| `Application.ProvApplication.Cleanup` | src/prov_application.cpp:196-216 | ordered shutdown, safe at every assignment from any safe state; a server that was up is stopped only after writes are refused |
| `Application.Live` | src/prov_application.cpp:50-216 | any sequence of starts and stops keeps the rules at every assignment |

## Left out

- IPC sockets, the dispatcher's JSON handling and the client stub: plumbing; clients call the service directly here.
- JSON text: the library that prints and parses it is taken to be exact; conversions beyond strings, integers, booleans
  and arrays of integers are not modelled.
- Directories, permissions and path normalisation: a path is its name; whether the store opens is a parameter.
- fsync and page-cache reordering, relaxed memory order, locale-dependent character classes: see Assumptions.
- The storage's own mutex: every access to it already happens under the service's.
- Logging, hashing of identifiers, durations: no effect on results or stored data.
- UID and SN providers' internals and configuration files: their results are arbitrary parameters.
- `record_error`, `read_ecu_uid`, `char_to_value`: never called.
- Overflow of 64-bit clock values: time points are unbounded integers.
- Exceptions from constructors while the application is being assembled.
- Application.Live: calls a start only when the application is down, because the framework's Application class, which
  makes the calls, is not part of this model.
- FileStore.FilesRefineAtomicMap: assumes complete stream writes, because the code does not check them; the exact
  condition is ReportedSaveIsStoredIffBytesArrive.
