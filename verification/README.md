# Verification of the diploma-issuing platform

A gateway (Go) accepts uploads of diploma records and hands each record to a Kafka topic. A worker (Rust) hashes
and signs every record, enters the hash in a registry, stores a result row, counts it, closes the batch with its
last row and publishes the result. The gateway reads the results back and runs its own persist transaction. A
public verifier (Go) checks the tokens and answers searches behind a per-client rate limiter. This project models
these services as Dafny modules and proves what they owe each other.

`dafny verify dfyconfig.toml` checks everything.

## How the model is built

- **Tables** are maps with the constraints of the migrations (`Tables`): UNIQUE(batch_id, record_index),
  UNIQUE(vuz_id, diploma_number), the primary key `hash`, the foreign keys with their cascades. Every statement and
  every transaction is a function on them.
- **Classes in the source's own form**: `Repository` (transactions, the two Go repositories), `Worker` (the Rust
  processor), `Services` (upload, signing keys, result consumer), `Delivery.KafkaConsumer`, `PublicRecord`,
  `RateLimiter.IpRateLimiter`. Each method is proved against the function it implements. `ProcessIsTheProtocolWorker`
  and `UploadIsARun` tie the classes to the state machine below.
- **`Transactions`** interleaves persist transactions statement by statement, with the row lock at the counter
  UPDATE, the blocking unique inserts and Read Committed reads (section 13.2.1 of the PostgreSQL manual). It shows why
  a persist transaction may be one step elsewhere.
- **`Protocol`** is the distributed state machine: any number of workers, each stopping between any two statements,
  publish failures, redelivery, duplicate results, `FailBatch`, revocation, cascade delete, changed university codes.
  `ProtocolInvariant` and `ProtocolRuns` prove its invariant for every run; `BatchRuns`, `BatchTimes`,
  `RegistryRuns`, `Revocations`, `Reissue`, `ReadPaths`, `Searching` and `Rowless` draw the conclusions. An `Upsert` of a signing key is one step there, so these results are
  about calls that do not overlap; overlapping ones are the subject of `SigningKeys`.
  They speak of any `cfg` that is deployed with the services' own hash and token; `ReadPaths.DeployIsDeployed` shows
  that the deployment `Protocol.Deploy` is one.
- **References**: `Acceptance` states on segments, claims, signature and envelope what an accepted token is, `Searching`
  what a search answers, `Persisting` what the persist paths store. The functions that follow the code are proved to
  meet these statements exactly.
- **`Replay`** and **`Delivery`** look at one consumer and its offsets: the first without transient faults, the second
  with the worker's own handler and all its faults.
- **Cryptography** is abstract (`Crypto`): SHA-256 is a function to 64 hexadecimal characters, AES-256-GCM, Ed25519 and
  JSON are pairs of functions with round-trip laws. Freedom from collisions is always a hypothesis about the finite set
  of strings hashed. Base64 (sections 4 and 5 of RFC 4648), hexadecimal, the compact serialization (section 7.1 of
  RFC 7515), trimming, joining and decimal numbers are concrete.
- Clocks, nonces, new ids, the row a lookup picks among several, and what the network does are parameters or actions.

## Results that qualify what the source says

- The README files speak of a random salt and another field order; the code derives the salt from university and
  trimmed number, and orders the fields as `CanonicalString` does. The code is modelled.
- Issuing trims nothing outside the salt and verifying trims everything, so verification accepts a token exactly for
  trimmed, complete records (`IssueThenVerify`). Complete includes a year above 0.
- Free-text fields that hold `|` can trade text without changing the hash: the canonical string determines a record
  exactly if none of them does (`DeterminedExactly`).
- A hexadecimal payload secret serves both Go services and stops the worker (`HexSecretStopsTheWorker`); all three
  agree exactly on canonical base64 of 32 bytes (`SharedExactly`).
- `FailBatch` and late workers overrule each other, and their order decides (`OrderDecides`). A batch that `FailBatch`
  was run on ends completed exactly if rows were missing at that moment and then all came in without error
  (`OverruledOutcome`); run after the last row it leaves a finished batch failed for good.
- `VerifyPayload` and `Search` agree on a token of the worker exactly if its hash has an ok row (`TwoReadPathsAgree`).
  It may have none: after a transient fault the error row stays, and when the task is delivered again its hash is
  registered and its token published. Then `Search` answers valid, but without year, specialty, degree and faculty
  (`PathsPart`).
- The worker's log promises that a message whose handler fails "will be redelivered". If an error stopped the process,
  no task below the committed offset would lack its row (`AtLeastOnce`). The code reads on, and a later commit skips
  the task for good (`ErrorThenCommitSkips`): no run loses a task exactly if the log has no task without a row ahead
  of a message that can be committed without it (`AtLeastOnceExactly`), and `LostExactly` says which tasks are lost.
- Overlapping first `Upsert` calls can leave keys that do not fit (`OverlapCanBreakKeys`); every interleaving fits
  exactly if all calls bring the same public key (`OverlapAlwaysFitsExactly`).
- A revoked number stays invalid in searches while its university lives. When the university is deleted and its code
  registered again, the number can be issued anew (`SearchAfterDeletionCanBeValid`).
- The worker signs a record without name, specialty or year; the search for it then fails instead of answering
  (`SearchSucceedsExactly`).
- Eviction is invisible exactly if a bucket refills within a visitor's lifetime (`InvisibleExactly`). The configuration
  does not demand it, and without it the admission bound fails too (`AdmissionBoundExactly`).

## Model

| member | source | states |
|---|---|---|
| Transactions.RunsAreSerial | cryptography-engine-rs/src/kafka/diploma.rs:241-346 | Worker and gateway persist transactions interleaved statement by statement, with other writers in between and crashes anywhere, always leave the tables of the committed ones run one after another in commit order |
| Transactions.CloserCountsEveryRow | gateway-service/internal/repository/postgres/diploma_repository.go:675-725 | A transaction that writes a terminal status has counted every result row its batch has when it commits, also those of concurrent transactions |
| Transactions.ClosedForGood | cryptography-engine-rs/src/kafka/diploma.rs:297-306 | Once a batch is full, no continuation of any interleaved run commits another row for it, so its closer has counted every row it will ever have |
| Transactions.AloneItEnds | cryptography-engine-rs/src/kafka/diploma.rs:241-346 | The statement-level transaction, undisturbed, commits or fails exactly as the one-step transaction used elsewhere |
| Tables.PersistRowShape | cryptography-engine-rs/src/kafka/diploma.rs:265-344 | Persisting a missing row succeeds where its batch lives and is insert, count and close together |
| BatchTimes.PersistTimes | cryptography-engine-rs/src/kafka/diploma.rs:265-344 | That effect spelled out: the last row of a batch gives it its verdict and its completion time, now unless it had one; any other row leaves both alone |
| Persisting.WorkerStoresExactly | cryptography-engine-rs/src/kafka/diploma.rs:254-346 | The row a worker result leaves, the existing row that stays, and the failure without a batch |
| Persisting.GatewayStoresExactly | gateway-service/internal/repository/postgres/diploma_repository.go:332-481 | What the gateway stores for any message: an error row with its text for an implausible one, and for a plausible one the registry entry and the row, or a rollback |
| Tables.VerdictKeepsCounters | gateway-service/internal/repository/postgres/diploma_repository.go:309-481 | Either persist path keeps each counter equal to the number of result rows |
| ProtocolRuns.RowsFit | gateway-service/internal/service/diplomas.go:51-68 | A batch has no more rows than records, and as many exactly when every record has one |
| ProtocolRuns.GatewayNeverWrites | gateway-service/internal/repository/postgres/diploma_repository.go:309-330 | In every reachable world the gateway's handling of a published result changes no table |
| ProtocolRuns.RenameStep | gateway-service/internal/repository/postgres/university_repository.go:104-133 | Changing a university's code and name keeps the invariant and all that survives |
| ProtocolRuns.RegisteredExactly | gateway-service/internal/repository/postgres/university_repository.go:72-103 | A university is entered under its id and code without a key, unless id or code is taken |
| ProtocolRuns.RenamedExactly | gateway-service/internal/repository/postgres/university_repository.go:104-133 | It is renamed as asked and keeps its key, unless another has the code |
| ProtocolRuns.ResultIsFinal | cryptography-engine-rs/src/kafka/diploma.rs:38-96 | Once a worker has its result, no step changes it: what is published is what was handed to the persist transaction |
| ProtocolRuns.NextKeeps | cryptography-engine-rs/src/kafka/diploma.rs:38-182 | Every step of the protocol keeps the invariant and changes nothing that survives: keys, hashes, revocations, rows, records |
| ProtocolRuns.RunKeeps | cryptography-engine-rs/src/kafka/diploma.rs:38-182 | So does every run, from any world that has the invariant |
| ProtocolRuns.Reachable | cryptography-engine-rs/src/kafka/diploma.rs:38-182 | Every world reachable from empty tables has the invariant |
| BatchRuns.CountersConserved | cryptography-engine-rs/src/kafka/diploma.rs:244-306 | In every reachable state processed_records is the number of result rows, at most total_records, and every row's index is below total_records |
| BatchRuns.StatusIsTruthful | gateway-service/internal/repository/postgres/diploma_repository.go:686-725 | Unless FailBatch had the last word, a non-empty batch is processing iff rows are missing, completed iff all are in without error, failed iff all are in with some error |
| BatchRuns.TerminalStatusIsFinal | cryptography-engine-rs/src/kafka/diploma.rs:308-344 | Without a failed publish, status and completion time never change once the status is terminal |
| BatchTimes.CompletionTimes | gateway-service/internal/repository/postgres/diploma_repository.go:686-725 | In every reachable world a batch has a completion time exactly if it is not processing, and it is the time of the FailBatch or of the persist transaction that ended it |
| BatchTimes.StepTimes | cryptography-engine-rs/src/kafka/diploma.rs:308-344 | What any one step may do to status and completion time: nothing, FailBatch with its time, or the closing row with its time unless there was one |
| BatchRuns.FullBatchIsFinal | cryptography-engine-rs/src/kafka/diploma.rs:254-265 | No run changes a full batch, whatever is redelivered, except through FailBatch |
| BatchRuns.PersistedBatchIsTerminal | cryptography-engine-rs/src/kafka/diploma.rs:241-346 | In any run, whatever its schedule, crashes and repeats, a non-empty batch is terminal once each of its records has had a persist transaction that succeeded |
| BatchRuns.FairRunsEndBatches | cryptography-engine-rs/src/kafka/consumer.rs:35-87 | From any reachable state, in any run and interleaving, a surviving non-empty batch is full and terminal once each of its tasks has gone to some worker that got its five turns before it crashed |
| BatchRuns.OverruledOutcome | gateway-service/internal/service/diplomas.go:70-73 | After FailBatch, in any later run without another, the batch is completed exactly if it was not full then and all its rows have come in without error, and is failed otherwise |
| BatchRuns.OrderDecides | gateway-service/internal/service/diplomas.go:70-73 | One upload from empty tables whose publish reports an error: FailBatch before the worker persists turns completed, after it the completed batch stays failed for good |
| BatchRuns.HandledSucceeds | cryptography-engine-rs/src/kafka/diploma.rs:98-182 | An undisturbed worker turns an admissible task with a readable key into exactly one ok row with its hash and token |
| RegistryRuns.RegistryIntegrity | cryptography-engine-rs/src/kafka/diploma.rs:118-136 | Over any run a (university, number) keeps its hash and revocation while the university lives, hashes are unique, and each stems from an uploaded record of that number |
| RegistryRuns.HashNamesKey | gateway-service/migrations/006_create_diploma_hashes.up.sql:1-11 | A hash belongs to one (university, number), even between different points of a run |
| RegistryRuns.NewNumberIsInserted | cryptography-engine-rs/src/kafka/diploma.rs:164-173 | Inserting a number not yet present never violates the primary key hash |
| RegistryRuns.RevocationIsPermanent | gateway-service/internal/repository/postgres/diploma_repository.go:270-292 | After a revocation no run, cascade delete and re-upload included, lets VerifyPayload report that hash valid or Search answer valid from it |
| RegistryRuns.RevokedSearchStaysInvalid | pubver/internal/service/verification_service.go:111-146 | While the university lives, searching for the revoked number by its code is never valid |
| Revocations.RevokeExactly | gateway-service/internal/repository/postgres/diploma_repository.go:270-292 | A revocation marks the entries of that university and hash, now, and leaves every other entry and table as it was; it fails exactly if there is none |
| Revocations.RevokedOnRequest | gateway-service/internal/repository/postgres/diploma_repository.go:270-292 | Over any run, whoever is revoked at its end and was not at its start was revoked by a request for its own university and hash, and carries that time |
| Revocations.SearchStaysValid | pubver/internal/service/verification_service.go:111-146 | Until someone asks for its revocation, a search for an active diploma is never answered other than valid, in any run in which its university lives |
| Revocations.TokenStaysValid | pubver/internal/service/verification_service.go:32-109 | Until then every token that was answered valid for it is answered valid again |
| Reissue.SearchAfterDeletionCanBeValid | gateway-service/internal/repository/postgres/university_repository.go:300-347 | That condition is needed: delete the university, register its code again, upload the number again, and the search for the revoked number is valid |
| Canonical.CanonicalDetermines | cryptography-engine-rs/src/cryptography/hashing.rs:16-42 | Canonical strings are equal exactly if university, number, year and the joined free text are, whatever `\|` the text holds |
| Text.ItoaReadsBack | cryptography-engine-rs/src/cryptography/hashing.rs:25-42 | A year is written with the decimal digits that spell it, without leading zeros |
| Text.SpacesListed | pubver/pkg/verifyhash/hash.go:57-84 | Trimming strips exactly the characters with the Unicode property White_Space |
| Canonical.FreeTextDetermines | cryptography-engine-rs/src/cryptography/hashing.rs:25-42 | The four free fields are equal exactly if their joined text is and the first three hold as many `\|` |
| Canonical.PipeFreeDetermines | cryptography-engine-rs/src/cryptography/hashing.rs:25-42 | If one record's free text has no `\|`, an equal canonical string means the same record and university |
| Canonical.FreeFieldsCanMove | cryptography-engine-rs/src/cryptography/hashing.rs:25-42 | For every record with a `\|` in its free text there is a different record with the same canonical string |
| Canonical.DeterminedExactly | cryptography-engine-rs/src/cryptography/hashing.rs:16-42 | The canonical string determines record and university exactly if no free field holds a `\|` |
| Canonical.SidesAgree | pubver/pkg/verifyhash/hash.go:57-84 | Verifying builds the string issuing built exactly for trimmed, complete records |
| Canonical.HashedExactly | pubver/pkg/verifyhash/hash.go:33-84 | The verifier hashes exactly complete inputs and names the first part that is missing |
| Encoding.EncodeReadsBack | cryptography-engine-rs/src/cryptography/jwt.rs:325-383 | Unpadded base64 round trip in both alphabets |
| Encoding.DecodeExactly | pubver/pkg/verifyhash/qr_jwt.go:95-134 | Unpadded base64 takes exactly the texts of letters that leave none over; every byte is given by its letters, spare bits are dropped |
| Encoding.AlphabetExactly | cryptography-engine-rs/src/cryptography/jwt.rs:325-383 | The two base64 alphabets in their order |
| Encoding.EncodeStdReadsBack | gateway-service/internal/infrastructure/security/key_encryptor.go:28-77 | What either side encodes in padded base64, Go and Rust both decode to the same bytes |
| Encoding.PaddedExactly | gateway-service/internal/infrastructure/security/key_encryptor.go:50-77 | Padded base64 takes exactly what at most two = bring to a multiple of four |
| Encoding.LineBreaksSkipped | pubver/internal/config/config.go:230-270 | Go skips line breaks wherever they stand in base64 |
| Encoding.HexReadsBack | pubver/internal/config/config.go:230-240 | Hexadecimal round trip |
| Encoding.HexExactly | pubver/internal/config/config.go:230-240 | Hexadecimal takes exactly an even number of digits of either case |
| SharedKey.Base64SecretIsShared | cryptography-engine-rs/src/kafka/diploma.rs:226-239 | From base64 of any 32 bytes all three services derive those bytes |
| SharedKey.SharedExactly | cryptography-engine-rs/src/kafka/diploma.rs:226-239 | All three services derive the same key from a secret exactly if it is canonical padded base64 of 32 bytes |
| SharedKey.HexSecretStopsTheWorker | pubver/internal/config/config.go:211-270 | From hexadecimal of 32 bytes the Go services derive them and the worker refuses |
| SharedKey.GoServicesAgree | gateway-service/internal/infrastructure/security/qr_payload_codec.go:173-211 | The Go services derive the same key from a secret exactly unless hex and padded base64 fail and unpadded base64 decodes it, to any length |
| SharedKey.GoKeysExactly | pubver/internal/config/config.go:211-270 | Which key either Go service derives from any secret: none from a blank one, 32 decoded bytes as they are, anything else hashed |
| Token.TokenSplits | pubver/pkg/verifyhash/qr_jwt.go:136-143 | A token splits into the three segments it was built from |
| Token.TokenReadsBack | pubver/pkg/verifyhash/qr_jwt.go:95-134 | Its claims read back and its signature is accepted under the matching public key |
| Token.EnvelopeReadsBack | cryptography-engine-rs/src/cryptography/jwt.rs:113-164 | The encrypted record opens for verifier and gateway alike |
| Token.OuterClaimsReadBack | pubver/pkg/verifyhash/qr_jwt.go:20-60 | The verifier's claim extraction returns the worker's claims |
| Token.VerifierDecrypts | pubver/pkg/verifyhash/a256gcm.go:67-113 | The verifier gets the record with its name trimmed, exactly for complete records |
| Token.GatewayReadsToken | gateway-service/internal/infrastructure/security/qr_payload_codec.go:84-171 | The gateway reads university and raw fields out of every worker token |
| Acceptance.AcceptedExactly | pubver/internal/service/verification_service.go:32-109 | VerifyPayload accepts exactly the tokens that are signed with EdDSA under the key of the university they name, are complete, decrypt to a complete document and claim its recomputed hash twice; the answer is about the diploma registered under that hash, or that there is none |
| Acceptance.RefusedExactly | pubver/internal/service/verification_service.go:32-64 | Which error a refused token gets |
| Acceptance.CheckedExactly | pubver/internal/service/verification_service.go:37-90 | The checks before the lookup let exactly those tokens through, with document and hash |
| Acceptance.FoldsAgree | pubver/internal/service/verification_service.go:83-90 | Hash claims may differ from the recomputed hash in the case of letters, and in nothing else |
| Acceptance.GatewayReadsExactly | gateway-service/internal/infrastructure/security/qr_payload_codec.go:84-171 | The gateway reads university and document out of exactly these tokens, signed or not |
| Verification.WorkerTokenChecks | pubver/internal/service/verification_service.go:32-90 | The checks before the lookup accept a worker token exactly for trimmed, complete records and yield its hash and record |
| Verification.SignatureDecidesAcceptance | pubver/internal/service/verification_service.go:61-64 | Whoever signs the claims of a registered, trimmed, complete record: the token is accepted exactly if the university's public key accepts the signature |
| Verification.AnySignatureChecks | pubver/internal/service/verification_service.go:32-90 | The checks before the lookup accept worker claims under any signature exactly if the public key accepts it and the record is trimmed and complete |
| Verification.IssueThenVerify | pubver/internal/service/verification_service.go:32-109 | VerifyPayload accepts the token of a registered diploma exactly for trimmed, complete records, and answers with that record and its revocation state |
| Verification.IssueUnregistered | pubver/internal/service/verification_service.go:90-109 | The token of a diploma that is not registered is answered as not found, exactly for trimmed, complete records |
| ReadPaths.StoredTokenVerifies | cryptography-engine-rs/src/kafka/diploma.rs:138-181 | In every reachable world the token of an ok row verifies exactly if the record uploaded at its index is trimmed and complete |
| ReadPaths.TwoReadPathsAgree | pubver/internal/service/verification_service.go:111-194 | For registered, trimmed, complete, `\|`-free records VerifyPayload and Search give the same answer exactly if the lookup finds an ok row of the hash, whichever it picks; if there is none Search lacks year, specialty, degree and faculty |
| Rowless.PathsPart | cryptography-engine-rs/src/kafka/diploma.rs:38-96 | A run that publishes a token of a registered diploma without an ok row: a transient fault, its error row, and the task again; VerifyPayload and Search then differ |
| Rowless.FirstUploadIsFresh | gateway-service/internal/service/diplomas.go:42-79 | Registering a university, giving it a key and uploading one record from empty tables reaches a world where that run can happen |
| ReadPaths.SearchAnswers | pubver/internal/repository/postgres/verification_repository.go:14-33 | Search completes its answer from any stored token of the record |
| Searching.SearchExactly | pubver/internal/service/verification_service.go:111-146 | Search in full: blank input refused, not found exactly if code and number name no diploma, and else an answer about the diploma named, valid exactly if it is not revoked, with what its stored token tells, or a failure exactly if that tells nothing |
| Searching.ValidIsNamed | pubver/internal/repository/postgres/verification_repository.go:49-53 | Over any tables a search answers valid only for a registered diploma that code and number name and that is not revoked |
| Searching.ValidWasUploaded | pubver/internal/service/verification_service.go:111-146 | In every reachable world a number is found valid only if the university with that code uploaded it |
| Searching.SearchSucceedsExactly | pubver/internal/service/verification_service.go:148-168 | In every reachable world the search for a registered number fails exactly if the picked ok row is that of a record without name, specialty or year |
| Searching.EnrichExactly | pubver/internal/service/verification_service.go:148-168 | When a record is completed from its stored token, left alone, or the lookup fails |
| ReadPaths.PersistPathsAgree | gateway-service/internal/repository/postgres/diploma_repository.go:332-481 | If the row were missing the gateway would leave the worker's tables, up to trimming of the error text |
| ReadPaths.PublishedResultsAgree | cryptography-engine-rs/src/kafka/diploma.rs:84-93 | The same for every result on the topic of a reachable world |
| ReadPaths.DownloadAligned | gateway-service/internal/repository/postgres/diploma_repository.go:195-265 | Every download row carries the record uploaded at its index, and an ok row's token never fails to decode and holds the same fields up to trimming of the name |
| ReadPaths.DownloadComplete | gateway-service/internal/repository/postgres/diploma_repository.go:169-268 | In every reachable world the download of an owned batch never fails and has one item per counted row, with the record at its index, the row's hash, token and error, and whether its diploma is revoked; for a full batch it is the whole upload in order |
| Download.FallbackOnlyTidies | gateway-service/internal/repository/postgres/diploma_repository.go:240-258 | Filling empty fields from the token only turns blank fields into empty ones |
| Download.StatusExactly | gateway-service/internal/repository/postgres/diploma_repository.go:222-230 | The status a row shows, over any registry: the error, the state of the diploma registered under its hash, or plain ok if none is |
| Download.WithoutRecord | gateway-service/internal/repository/postgres/diploma_repository.go:232-258 | Without a stored record a row shows what its token says, and nothing if there is none |
| Replay.DrainedRunIsTheFold | cryptography-engine-rs/src/kafka/diploma.rs:98-182 | Whatever the crashes, replays, late commits and duplicates, a run that drains the log leaves the registered hashes and, per row, the accepted hash or the error text of one pure fold over it |
| Replay.RunIssuesTokens | cryptography-engine-rs/src/kafka/diploma.rs:138-181 | In every such run each ok row carries a token of the first task for its row, issued with the university's key for some nonce and time |
| Replay.FoldIsFirstWins | cryptography-engine-rs/src/kafka/diploma.rs:118-136 | That fold in closed form, from any tables: what was there stays, then the first hash of a number wins, the first task of a row wins, and a new row is ok exactly if its hash is the registered one |
| Replay.DrainedRunIsFirstWins | cryptography-engine-rs/src/kafka/diploma.rs:98-182 | Both together: the closed form of what any drained run leaves, from any tables |
| Replay.ConcludeFolds | cryptography-engine-rs/src/kafka/diploma.rs:118-182 | process_inner does to the registry what the fold does and comes to the fold's judgement |
| Replay.NoCollisionsKeepHashesApart | cryptography-engine-rs/src/cryptography/hashing.rs:16-42 | Without collisions among the strings hashed, now and for what is registered already, different numbers have different hashes |
| Delivery.AtLeastOnce | cryptography-engine-rs/src/kafka/consumer.rs:45-84 | If a handler error ends the process before another message is read, every task below the committed offset has its row in every run, restarts and late commits included |
| Delivery.AtLeastOnceExactly | cryptography-engine-rs/src/kafka/consumer.rs:45-84 | As coded this holds in every run exactly for logs and tables in which no task without a row is followed by a message that can be committed without it |
| Delivery.LostExactly | cryptography-engine-rs/src/kafka/consumer.rs:62-71 | No continuation gives a row to the last copy of a task whose batch lives exactly if its row is missing and position, committed offset and commits under way are past it |
| Delivery.SkippedForGood | cryptography-engine-rs/src/kafka/consumer.rs:62-71 | A task so skipped is never handled again in any run, and its batch stays processing |
| Delivery.ErrorThenCommitSkips | cryptography-engine-rs/src/kafka/consumer.rs:62-71 | The coded run that skips a task: its handler fails, a later message is committed, and whatever follows its row is missing and its batch processing |
| Delivery.CommittedBatchIsTerminal | cryptography-engine-rs/src/kafka/consumer.rs:45-84 | If errors stop the process, a batch is terminal once the consumer has committed past all its tasks |
| Delivery.ReachableInOrder | cryptography-engine-rs/src/kafka/consumer.rs:35-87 | In every reachable world without an overruled batch, the raw-task topic and the tables are in the order that the results on skipped tasks and terminal batches ask for |
| Delivery.KafkaConsumer.constructor | cryptography-engine-rs/src/kafka/consumer.rs:17-33 | A new consumer starts at the beginning with nothing committed |
| Delivery.KafkaConsumer.Handler | cryptography-engine-rs/src/kafka/diploma.rs:38-96 | The handler is the processor, with its faults: its effect on tables and whether it fails are those of the state machine's reads |
| Delivery.KafkaConsumer.Consume | cryptography-engine-rs/src/kafka/consumer.rs:35-87 | The message loop moves position, pending commits and tables as the state machine's reads do; when a commit lands is an event of its own |
| Delivery.ReadExactly | cryptography-engine-rs/src/kafka/consumer.rs:45-84 | What a read of a healthy task leaves, by what becomes of it: ok row, hash and commit; error row and commit; or neither, though the hash may be registered |
| SigningKeys.SealedKeyOpens | gateway-service/internal/infrastructure/security/key_encryptor.go:28-77 | What the gateway seals, worker and gateway open again |
| SigningKeys.RefusedExactly | gateway-service/internal/service/signing_keys.go:47-80 | What a call refuses, and in which order |
| SigningKeys.UpsertExactly | gateway-service/internal/service/signing_keys.go:69-100 | What a call leaves: the public half on record, a sealed key that opens to the one given unless it was cut short, and nothing else changed |
| SigningKeys.OnlyEnvelopesOpen | cryptography-engine-rs/src/kafka/diploma.rs:184-224 | Nothing without the envelope's prefix opens, and what opens is the readable key inside |
| SigningKeys.UpsertKeepsKeys | gateway-service/internal/service/signing_keys.go:47-100 | One Upsert, crashed or not, leaves every stored private key deriving its public key and changes no set public key |
| SigningKeys.UpsertRunsKeepKeys | gateway-service/internal/service/signing_keys.go:47-100 | So does any run of calls that do not overlap |
| SigningKeys.UnsealedKeySignsAcceptedTokens | cryptography-engine-rs/src/kafka/diploma.rs:184-224 | What the worker signs with the key it unseals, the verifier accepts |
| SigningKeys.OverlapAlwaysFitsExactly | gateway-service/internal/service/signing_keys.go:69-91 | Every interleaving of a set of first calls, crashes included, leaves fitting keys exactly if all calls bring the same public key |
| SigningKeys.OverlapFitsExactly | gateway-service/internal/service/signing_keys.go:69-91 | After one schedule of overlapping first calls the keys fit exactly if the last writers of the two keys brought the same public key |
| SigningKeys.OverlapCanBreakKeys | gateway-service/internal/service/signing_keys.go:69-91 | The overlapping run that leaves keys that do not fit |
| RateLimiter.DecideByLevel | pubver/internal/httpapi/middleware.go:110-129 | A request is admitted exactly with a whole token at hand; a cancelled one costs nothing; its delay is the time the missing part needs, and Retry-After that time rounded up to whole seconds, at least one |
| RateLimiter.LevelExactly | pubver/internal/httpapi/middleware.go:147-163 | Tokens at hand are those left and those that flowed in, up to the burst; a clock that goes back brings none |
| RateLimiter.RunFollows | pubver/internal/httpapi/middleware.go:147-180 | If a bucket refills within a lifetime, the sweeping limiter follows one that never evicts |
| RateLimiter.WitnessDiffers | pubver/internal/httpapi/middleware.go:165-180 | If not, a client that drains its bucket, rests and returns is answered differently |
| RateLimiter.InvisibleExactly | pubver/internal/httpapi/middleware.go:147-180 | Eviction is invisible in decisions and delays for every ordered sequence of requests exactly if visitorTTL times rate is at least burst |
| RateLimiter.AdmissionBound | pubver/internal/httpapi/middleware.go:110-131 | If a bucket refills within a lifetime, a client is admitted at most burst + rate * T times in any window of length T |
| RateLimiter.AdmissionBoundExactly | pubver/internal/httpapi/middleware.go:147-180 | That bound holds in every window of every run exactly if visitorTTL times rate is at least burst; otherwise a client gets twice its burst within a shorter time than pays for it |
| RateLimiter.RetryAfterIsKept | pubver/internal/httpapi/middleware.go:120-129 | A rejected client that waits Retry-After seconds is admitted next, whatever others do, evicted or not |
| RateLimiter.MemoryIsBounded | pubver/internal/httpapi/middleware.go:165-180 | After any run a client is remembered if its last request is at most a lifetime ago, and only if it is less than a lifetime and an interval ago |
| RateLimiter.IpRateLimiter.constructor | pubver/internal/httpapi/middleware.go:49-62 | A new limiter knows nobody and has never swept |
| RateLimiter.IpRateLimiter.CleanupVisitors | pubver/internal/httpapi/middleware.go:165-180 | The sweep removes exactly the stale visitors, and only when it is due |
| RateLimiter.IpRateLimiter.Reserve | pubver/internal/httpapi/middleware.go:147-163 | Sweep, find or make the bucket, take a token, remember the time |
| RateLimiter.IpRateLimiter.Admit | pubver/internal/httpapi/middleware.go:101-133 | The decision and the state the request leaves |
| Repository.Tx.InsertResult | gateway-service/internal/repository/postgres/diploma_repository.go:663-673 | The insert with its unique and foreign keys, or its error and no change |
| Repository.Tx.IncrementBatchProcessed | gateway-service/internal/repository/postgres/diploma_repository.go:675-684 | Only the batch's counter changes |
| Repository.Tx.FinalizeBatchIfComplete | gateway-service/internal/repository/postgres/diploma_repository.go:686-725 | A full batch gets its status from its error rows and keeps its first completion time; any other stays |
| Repository.Tx.StoreRow | gateway-service/internal/repository/postgres/diploma_repository.go:341-350 | Row, counter and status in one go |
| Repository.Tx.InsertDiplomaHash | gateway-service/internal/repository/postgres/diploma_repository.go:404-423 | The registry insert with both unique keys and the foreign key |
| Repository.Tx.DeleteBatches | gateway-service/migrations/007_create_batch_results.up.sql:1-12 | Deleting batches takes their results and payloads along |
| Repository.Tx.DeleteShareLinks | gateway-service/internal/repository/postgres/university_repository.go:313-325 | The share links of the diplomas the university issued go, and only they |
| Repository.DiplomaRepository.CreateBatchWithRecords | gateway-service/internal/repository/postgres/diploma_repository.go:19-72 | The batch and one payload per record at its index, or the foreign-key error and no change |
| Repository.DiplomaRepository.FailBatch | gateway-service/internal/repository/postgres/diploma_repository.go:74-83 | Status failed and completion now, unconditionally |
| Repository.DiplomaRepository.MarkDiplomaRevoked | gateway-service/internal/repository/postgres/diploma_repository.go:270-292 | Exactly the entries of that university and hash become revoked, or no row was found |
| Repository.DiplomaRepository.ApplyProcessingResult | gateway-service/internal/repository/postgres/diploma_repository.go:294-481 | The gateway's transaction, branch by branch, has the effect of GatewayApply, or rolls back |
| Repository.DiplomaRepository.ReadItem | gateway-service/internal/repository/postgres/diploma_repository.go:196-260 | One download row from result row, stored payload and, for empty fields, the token |
| Repository.OrderByIndex | gateway-service/internal/repository/postgres/diploma_repository.go:187-188 | The rows of a batch in ascending order of their index, each once |
| Repository.DiplomaRepository.GetBatchDownloadRows | gateway-service/internal/repository/postgres/diploma_repository.go:169-268 | One item per result row of the batch, in order of index, and none for a university that does not own it; no download exactly if some token fails to decode |
| Repository.OnlyOwnersDownload | gateway-service/internal/repository/postgres/diploma_repository.go:169-190 | A university that does not own the batch downloads nothing |
| Repository.UniversityRepository.DeleteCascade | gateway-service/internal/repository/postgres/university_repository.go:300-347 | The university goes with the share links of its diplomas, its batches, their rows and payloads, its registry entries and its key, and nothing else does |
| Repository.DeletionLeavesNoTrace | gateway-service/internal/repository/postgres/university_repository.go:300-347 | Afterwards nothing belongs to it, no link shows a hash that is not registered, and no row or payload lacks its batch |
| Repository.DeletionSparesOthers | gateway-service/internal/repository/postgres/university_repository.go:300-347 | What belongs to other universities survives: keys, batches, rows, payloads, registry entries, share links |
| Worker.DiplomaProcessor.GetUniversityKey | cryptography-engine-rs/src/db/repository.rs:32-58 | The sealed key of the university, if any |
| Worker.DiplomaProcessor.GetDiplomaByVuzAndNumber | cryptography-engine-rs/src/db/repository.rs:189-215 | The registered hash of the number, if any |
| Worker.DiplomaProcessor.InsertDiplomaHash | cryptography-engine-rs/src/db/repository.rs:79-105 | The registry insert as a statement of its own |
| Worker.DiplomaProcessor.ProcessInner | cryptography-engine-rs/src/kafka/diploma.rs:98-182 | The result and the one registry write of an undisturbed worker |
| Worker.DiplomaProcessor.PersistProcessingResult | cryptography-engine-rs/src/kafka/diploma.rs:241-356 | The worker's transaction has the effect of Persist, or rolls back |
| Worker.DiplomaProcessor.Process | cryptography-engine-rs/src/kafka/diploma.rs:38-96 | Persist first, publish after; the handler fails exactly if the persist does |
| Worker.InnerIsThreeStatements | cryptography-engine-rs/src/kafka/diploma.rs:98-182 | process_inner is the state machine's way from fetched to ready |
| Worker.ProcessIsTheProtocolWorker | cryptography-engine-rs/src/kafka/diploma.rs:38-96 | Run to its end, the state machine's worker leaves the tables and the message Process leaves |
| Services.DiplomaService.Upload | gateway-service/internal/service/diplomas.go:42-79 | One task per record, of which any may get out, in any order and repeatedly; the batch is failed unless all got out and were acknowledged, and a failure of that statement goes unnoticed |
| Services.UploadIsARun | gateway-service/internal/service/diplomas.go:42-79 | Whatever the producer gets out, the upload is a run of the state machine |
| Services.UploadIsTruthful | gateway-service/internal/service/diplomas.go:70-79 | After an upload a batch that reads processing has all its tasks on the topic unless FailBatch was lost, and one whose producer reported an error reads failed |
| Services.SigningKeyService.Upsert | gateway-service/internal/service/signing_keys.go:47-100 | Checks and both writes, with a crash between them as an option, have the effect of Upsert |
| Services.ResultConsumer.Start | gateway-service/internal/infrastructure/kafka/consumer.go:36-110 | The loop leaves exactly the tables and the committed offset of applying the results one by one: failures are skipped uncommitted, messages that do not decode are committed and skipped, and a commit that fails is only logged |
| Services.ConsumedIsARun | gateway-service/internal/infrastructure/kafka/consumer.go:85-98 | Consuming published results is a run of the state machine |
| Services.CommittedIsAfterTheLast | gateway-service/internal/infrastructure/kafka/consumer.go:36-110 | The committed offset is just after the last message that did not decode or was applied, and whose commit did not fail |
| Services.ConsumedTables | gateway-service/internal/infrastructure/kafka/consumer.go:85-98 | Results are applied one after another; one that cannot be applied changes nothing |
| Services.ResultsChangeNothing | gateway-service/internal/infrastructure/kafka/consumer.go:85-98 | In every reachable world handling published results in any order, any number of times, changes no table |
| PublicRecord.DiplomaRecord.Scan | pubver/internal/repository/postgres/verification_repository.go:78-116 | The scanned row fills exactly the fields it has |
| PublicRecord.DiplomaRecord.ApplyEncryptedPayload | pubver/internal/service/verification_service.go:170-194 | The payload fills only fields the record lacks |
| PublicRecord.FirstPayloadWins | pubver/internal/service/verification_service.go:170-194 | No payload whatever changes a record exactly if it lacks none of the fields a payload fills |
| PublicRecord.DiplomaRecord.EnrichFromStoredQr | pubver/internal/service/verification_service.go:148-168 | Completes the record from its stored token, or reports the error and leaves it |
| PublicRecord.EnrichingKeeps | pubver/internal/service/verification_service.go:148-168 | Completing a record from its stored token changes neither identity, status nor any field that had a value |
| PublicRecord.FetchOne | pubver/internal/repository/postgres/verification_repository.go:78-116 | A lookup yields the registry entry joined with its university and the picked token |
| PublicRecord.EncryptedPayload.Normalize | pubver/pkg/verifyhash/a256gcm.go:23-35 | Trims both names, lets one stand in for the other, refuses two different ones |

## Left out

- Column widths (the upload handler checks them), 32-bit index casts, and the signature column nobody reads.
- DeleteCascade statement by statement: cascade delete is one atomic step, and `Transactions` has no deletes.
- Creating and resolving share links, API keys, login and registration checks: single-branch code. Only the deletion of
  share links is modelled.
- Exact texts of library errors, and the JSON texts themselves; messages that do not parse only move offsets.
- PEM parsing differences between Go and Rust, RSA and other key types: a key either reads or does not.
- Non-canonical spellings of UUIDs that PostgreSQL would accept from a forged token.
- The `iat` of the gateway's envelope and claims given as fractional JSON numbers.
- Case folding beyond ASCII: one side of each comparison is a hexadecimal digest, so nothing else can fold onto it.
- Nanosecond rounding in the rate limiter, and requests handled concurrently: buckets are real-valued and requests come
  one at a time.
- Environment loading, HTTP handlers, logging, Excel and QR rendering, the frontend.
- `jwe.rs`, `is_batch_complete`, `sign_hash`, `ServiceClaims`: no effect on stored or returned data, or unused.
- Overlapping `Upsert` calls in the state machine: there each is one step, crashed between its writes or not.
- Steps of others between those of one upload: `Services` runs it by itself, `Protocol` interleaves the same steps.
- Replay.DrainedRunIsTheFold: assumes no transient faults, as a fault stores an error row that no replay revises.
- RegistryRuns.RevokedSearchStaysInvalid: speaks of codes and numbers without outer white space, since Search trims its input.
