# Verified model of Ephera's money-moving core

This project models, in Dafny, the parts of the Ephera repository that decide whether money moves
and how often: bounded authority (single-use credentials spent together with their effect), the
double-entry ledger, the offline payment queue, and the codecs these rely on. Every claim below is
proved for all inputs, all runs or all interleavings, as its row says. `dafny verify dfyconfig.toml`
checks the whole project.

## How the model is laid out

| file | what it models |
|---|---|
| `Store.dfy` | the contract of `Store.Consume`, as a serial store, and what its histories satisfy |
| `MemoryStore.dfy` | the in-memory store, as a class with staged writes |
| `PostgresSteps.dfy` | `Consume` over PostgreSQL as a step system: any number of attempts, any interleaving |
| `Linearisation.dfy` | the guarantees of that step system, chiefly that it refines the serial store |
| `PostgresStore.dfy` | the control flow of `Consume`, with arbitrary steps of other sessions between its statements |
| `Credential.dfy`, `Authority.dfy`, `Grant.dfy`, `Receipt.dfy` | the token format, credentials, grants and receipts |
| `Acceptance.dfy` | exactly which strings are accepted as credentials and grants, and which give each error, without the code of Verify and Mint |
| `Authorise.dfy` | `Authorise` over either store, and the composed system: minting, presenting, and the database |
| `Instance.dfy` | one choice of primitives that meets every hypothesis, and a run of it that spends a credential |
| `Ledger.dfy`, `LedgerLaws.dfy`, `LedgerRuns.dfy`, `LedgerRefusals.dfy` | the ledger, the laws of one journal, the laws of whole runs, and what post refuses and why |
| `OfflineQueue.dfy`, `QueueProtocol.dfy`, `QueueRefinement.dfy` | the queue over shared objects, its runs with overlapping flushes and crashes, and that the two agree |
| `PaymentLink.dfy`, `LinkText.dfy`, `Url.dfy`, `Utf8.dfy`, `JsText.dfy` | payment links, their text spelled out, and the URL machinery they use |
| `Base64Url.dfy`, `LengthPrefix.dfy`, `Int64.dfy`, `Mood.dfy` | base64url, length-prefixed records, i64 arithmetic, colour conversion |
| `Seqs.dfy`, `Wrappers.dfy` | sequences taken apart at the end; `Option` and `Result` |

## How the outside world enters

- SHA-256, Ed25519 and `encoding/json` are fields of the record `Credential.Scheme`. What a theorem
  needs of them it says. No theorem assumes a hash without collisions: where a digest has to tell two
  inputs apart, the hypothesis is that these two do not collide (`Scheme.Apart`), which a real hash
  can meet. `CodecRoundTrips` says that valid UTF-8 payloads survive encoding and `SignaturesCheck`
  that a signature checks under its own key. Unforgeability is a condition on what may be presented
  (`Authorise.NotForged`): a signature that checks under an uncompromised key came from minting.
- The rendering of instants is a function; where two times must be told apart, the hypothesis is
  about these two (`Receipt.TellsApart`).
- These hypotheses can all be met at once: `Instance.HypothesesAreMet` gives a scheme that is even
  free of collisions, and a run over it that ends with a credential spent and its effect made, and
  `Instance.RenderIsUnambiguous` a rendering that tells all instants apart. Digest texts are of any
  length, since no hash into texts of bounded length could be free of collisions.
- Clocks, identifiers and the answers of the network are parameters or arbitrary values.
- PostgreSQL is modelled by what the code relies on: a second insert of a key waits for the first
  transaction, then is refused if that one committed and proceeds if it did not; a transaction's
  writes become visible together at commit.
- Go strings are byte sequences (`GoString`); JavaScript strings are sequences of Unicode scalar
  values, so well-formed text.

## Where the code falls short of what one might expect

Each of these is stated as a lemma, with the exact condition under which the property does hold.

- A balanced, funded journal whose apply loop overflows leaves earlier postings applied
  (`LedgerLaws.PartialPost`); `LedgerLaws.AllOrNothing` says exactly when a post is all or nothing
  and `LedgerLaws.NeverOverflows` gives a bound callers can keep.
- The funds check is made per posting, so two debits of one account in one journal can overdraw it
  (`LedgerLaws.DoubleDebitOverdraws`), and an amount of `i64::MIN`, which has no absolute value, in a
  release build passes the check of an empty account (`LedgerLaws.MinAmountOverdraws`).
  `LedgerLaws.SolvencyExactly` says for every accepted journal, with any amounts and whether or not
  it stops half way, exactly when all accounts stay solvent; `LedgerRuns.SolvencyThroughout` says it
  for whole runs.
- `open_account` on an account in use resets its balance (`LedgerRuns.ReopeningBreaksAgreement`).
  `LedgerRuns.AgreementStep` says exactly which operations keep all balances in agreement with the
  log, and `LedgerRuns.AgreementThroughout` says it for whole runs, with no bound on any amount.
- The lifetime check subtracts in wrapping int64 arithmetic, so a payload with a sufficiently
  negative issue time passes it with an arbitrarily long window (`Authority.WrappedLifetime`);
  `Credential.UsableTime` says exactly which payloads are bounded.
- Unlike credentials, a grant with a caller-supplied wrong version or issuer, or with an empty
  window, can be minted (`Grant.MintedInVain`); `Grant.MintThenVerify` says exactly which grants are
  ever accepted.
- A deep link drops an empty display name or merchant ID (`PaymentLink.EmptyNameIsDropped`), and an
  https link to "." or ".." names someone else or nobody (`PaymentLink.DotRecipients`); `PaymentLink.DeepLinkRoundTrip` and `PaymentLink.HttpsLinkRoundTrip` say
  exactly when links come back unchanged.

## Model

| member | source | states |
|---|---|---|
| Store.SpentAtMostOnce | modules/boundedauth/store.go:27-44 | in any history the contract allows, two successful calls never cite the same identifier |
| Store.RecordedIffSpent | modules/boundedauth/store.go:29-33 | an identifier is on record exactly when some call spent it |
| Store.RefusedAfterSpend | modules/boundedauth/store.go:31-32 | a call is refused as a replay only after an earlier call spent its identifier |
| Store.CommittedBySpender | modules/boundedauth/store.go:34-38 | every visible value was written by the effect of a call that spent its credential |
| Store.SpendExactly | modules/boundedauth/store.go:29-38 | what the contract comes to, field by field: refused or failed calls change nothing, and a call that spends adds its own record and its own writes and keeps everything else |
| Store.LastWriteWins | modules/boundedauth/memory/memory.go:88-95 | of several writes to one key the last is the one that is staged |
| MemoryStore.MemoryStore.Consume | modules/boundedauth/memory/memory.go:61-84 | the new state and the outcome are those of the contract: refused unchanged, failed unchanged, or record and all staged writes together, in whatever order the map is visited; the effect is run once, and not at all for a credential already spent |
| MemoryStore.MemoryStore.Put | modules/boundedauth/memory/memory.go:88-95 | a write is staged on the transaction, and refused outside one |
| MemoryStore.MemoryStore.Get | modules/boundedauth/memory/memory.go:100-105 | reads committed values only |
| MemoryStore.MemoryStore.Consumption | modules/boundedauth/memory/memory.go:108-113 | the record under an identifier, if it was spent |
| MemoryStore.MemoryStore.Run | modules/boundedauth/memory/memory.go:71-77 | running the effect stages its writes, the last one to a key winning, and reports its error |
| PostgresSteps.Step | modules/boundedauth/postgres/postgres.go:80-113 | every step of every attempt keeps the invariant: rows owned by attempts past their insert, one live row per key, staged writes those of the effect so far, history in agreement with the tables |
| PostgresSteps.KeyStep | modules/boundedauth/postgres/schema.sql:3-9 | no step creates two live rows with one primary key |
| PostgresSteps.HeldKeyIsUnspent | modules/boundedauth/postgres/postgres.go:89-104 | while a transaction holds the row for an identifier, no committed record has that identifier |
| PostgresSteps.SettledAsSerial | modules/boundedauth/postgres/postgres.go:94-112 | each caller is told what the serial store would tell it at that point |
| Linearisation.RefinesSerialStore | modules/boundedauth/postgres/postgres.go:80-113 | after every interleaving of any number of calls there is one order of the settled calls in which the serial store gives every caller its outcome and leaves exactly the records and tables the database shows |
| Linearisation.OrderRespectsRealTime | modules/boundedauth/postgres/postgres.go:80-113 | a call settled before another began comes first in that order |
| Linearisation.OneEffectAtATime | modules/boundedauth/postgres/schema.sql:3-6 | at most one transaction for an identifier is past its insert and not ended |
| Linearisation.ReplayOnlyAfterCommit | modules/boundedauth/postgres/postgres.go:94-100 | a caller is told the credential was already consumed only when another call on that identifier has committed |
| Linearisation.CommitsAtMostOnce | modules/boundedauth/store.go:40-41 | two committed calls on one identifier are the same call |
| Linearisation.ExactlyOneSpends | modules/boundedauth/store.go:40-41 | of simultaneous calls on one identifier, once all have returned without a fault, exactly one spent it and all others were refused |
| Linearisation.OnlySuccessesCount | modules/boundedauth/store.go:36-38 | the durable state is that of the successful calls alone |
| Linearisation.FailuresAreInvisible | modules/boundedauth/store.go:34-38 | what the database shows is what the committed calls, in commit order, leave in the serial store |
| Linearisation.SpendableAfterFailures | modules/boundedauth/store.go:36-38 | a credential whose every attempt failed, for whatever reason, can still be spent, with its record and every write |
| Linearisation.SomeoneCanMove | modules/boundedauth/postgres/schema.sql:3-7 | waiting on a key never deadlocks: some unfinished call can always take a step |
| PostgresStore.PostgresStore.Consume | modules/boundedauth/postgres/postgres.go:80-113 | among arbitrary steps of other sessions, the call takes exactly the steps of the one path that belongs to its verdict: the effect once and only after the insert, the deferred rollback on every path but the committed one, a panic of the effect included; a fault is reported only if one happened or the call gave up while blocked, and a fault of the begin, the insert or the commit that happens is reported, never success |
| PostgresStore.PostgresStore.Record | modules/boundedauth/postgres/postgres.go:89-102 | the insert ends with the row held, with the replay refused, or with an error, and in the last two cases the transaction is rolled back |
| PostgresStore.PostgresStore.ExecInsert | modules/boundedauth/postgres/postgres.go:89-96 | the insert waits while another transaction holds the key; an error without a fault means it was still waiting when its context ended, and a fault of the insert is an error |
| PostgresStore.PostgresStore.RunEffect | modules/boundedauth/postgres/postgres.go:104-107 | the effect makes its writes once each, in order, on the call's own transaction, up to where it ends or panics |
| PostgresStore.PostgresStore.Finish | modules/boundedauth/postgres/postgres.go:104-112 | commit exactly when the effect succeeded and the commit did; otherwise the effect's own error, the commit error or the panic, after a rollback |
| PostgresStore.PostgresStore.Consumption | modules/boundedauth/postgres/postgres.go:121-137 | a lookup answers what the serial store would answer after the settled calls, with the time of consumption as the column keeps it, or the read error |
| PostgresStore.VerdictIsEvidenced | modules/boundedauth/postgres/postgres.go:115-137 | a call that was told it spent its credential finds its own record for ever after, and a refused one finds a record |
| Authority.ComputeDigest | modules/boundedauth/authority.go:152-176 | the fields written to the running hash are the eight items of the binding in order |
| Authority.PreimageLayout | modules/boundedauth/authority.go:152-176 | the hashed bytes, field by field: version, payer, payee, amount, fee, currency, reference and context in this order, text after its length in eight bytes, amounts as eight bytes of two's complement |
| Authority.PreimageInjective | modules/boundedauth/authority.go:148-163 | over any byte strings and any int64 amounts, two bindings under two versions feed the same bytes to the hash exactly when all eight inputs agree |
| Authority.PreimageDecodes | modules/boundedauth/authority.go:148-163 | a decoder recovers every field from the hashed bytes |
| Authority.DigestInjective | modules/boundedauth/authority.go:148-163 | digests are equal exactly for equal bindings, unless the two preimages collide |
| Authority.MintThenVerify | modules/boundedauth/authority.go:204-342 | whatever Mint accepts reaches a trusting verifier unchanged, version and issuer filled in, and only method, clock and transaction decide the outcome |
| Authority.MintedIsAccepted | modules/boundedauth/authority.go:204-342 | a minted credential is accepted, as what was minted, for exactly the bound transaction, exactly the clock readings in its window and exactly the verifiers permitting its method; a presented transaction whose preimage collides with the bound one is set aside |
| Acceptance.AcceptedExactly | modules/boundedauth/authority.go:268-342 | an arbitrary string is accepted, as a payload, exactly when its parts decode, the signature checks under a 32-byte key trusted for the issuer it names, the strictly decoded payload has version "bounded-authority/1", that issuer, an identifier and a permitted method, a lifetime of at most 300 seconds, a window that 30 seconds of skew reach, and the digest of the transaction |
| Acceptance.CarriedExactly | modules/boundedauth/authority.go:308-341 | for a string that carries a signed payload, exactly which payloads give each error, by the first test failed |
| Acceptance.UnsignedExactly | modules/boundedauth/authority.go:269-306 | for one that does not, which of the untrusted-issuer, bad-signature and malformed errors it gives |
| Acceptance.MintedExactly | modules/boundedauth/authority.go:204-233 | exactly which payloads are minted, the token they become, and which give each error |
| Authority.RepointingRefused | modules/boundedauth/authority.go:338-340 | a credential accepted for one transaction is refused as a mismatch for every other whose preimage does not collide with it |
| Authority.ContentOnlyAfterSignature | modules/boundedauth/authority.go:278-294 | acceptance, and every error about what a credential says, comes after a signature that checks under the key trusted for the issuer it names |
| Authority.TransactionDecidesLast | modules/boundedauth/authority.go:308-341 | every error but the mismatch is the same whatever transaction a credential is presented against |
| Authority.AcceptedWindow | modules/boundedauth/authority.go:327-337 | any two instants at which one credential is accepted are at most 360 seconds apart, if its timestamps subtract without wrapping |
| Authority.WrappedLifetime | modules/boundedauth/authority.go:219-224 | a concrete payload whose lifetime wraps to minus one, which is minted and usable for ever |
| Authority.TrustIsSeparate | modules/boundedauth/authority.go:240-243 | trusting one more issuer name changes nothing for credentials naming another issuer |
| Credential.CutAtFirstDot | modules/boundedauth/authority.go:269-272 | a token is taken apart at its first dot |
| Credential.SealedParts | modules/boundedauth/authority.go:226-233 | both halves of a sealed token come apart, decode to what was encoded, and the signature checks |
| Credential.UsableTime | modules/boundedauth/authority.go:327-337 | a payload within the lifetime ceiling is usable for at most 360 seconds exactly when its timestamps subtract without wrapping |
| Credential.UsableTimeOfOrdinaryPayloads | modules/boundedauth/authority.go:327-337 | with a non-negative issue time the 360 seconds always hold |
| Grant.ComputeDigest | services/authgrant/grant.go:98-121 | the raw version and then the six fields are written to the running hash in order |
| Grant.PreimageLayout | services/authgrant/grant.go:98-121 | the hashed bytes, field by field: the bare version, payer, payee, amount, fee, currency and transfer, text after its length in eight bytes, amounts as eight bytes of two's complement |
| Grant.PreimageInjective | services/authgrant/grant.go:96-108 | two transfers feed the same bytes to the hash exactly when they are equal |
| Grant.PreimagesAreDisjoint | services/authgrant/grant.go:98-108 | no transfer bound by a grant feeds the hash the bytes of a transaction bound by a credential |
| Grant.DigestsAreDisjoint | services/authgrant/grant.go:98-108 | so no grant digest equals a bounded-authority digest, unless the two preimages collide |
| Grant.SignatureFirst | services/authgrant/grant.go:202-205 | acceptance, and every error about what a grant says, comes after a signature that checks |
| Grant.MintThenVerify | services/authgrant/grant.go:136-240 | a minted grant is accepted for exactly the bound transfer and exactly the clock readings in its window, if version and issuer were left to Mint or named correctly, and never otherwise |
| Acceptance.GrantAcceptedExactly | services/authgrant/grant.go:188-240 | an arbitrary string is accepted as a grant exactly when its parts decode, the signature checks under a 32-byte key, and version, issuer, identifier, lifetime, window and digest are as required |
| Acceptance.GrantCarriedExactly | services/authgrant/grant.go:218-239 | for a string that carries a signed payload, exactly which payloads give each error |
| Acceptance.GrantUnsignedExactly | services/authgrant/grant.go:189-216 | for one that does not, when the error is a bad signature and when it is malformed |
| Acceptance.GrantMintedExactly | services/authgrant/grant.go:136-160 | exactly which payloads are minted, the token they become, and which give each error |
| Grant.MintedInVain | services/authgrant/grant.go:136-160 | two concrete grants, one with an empty window and one of an unknown version, that are minted and never accepted |
| Receipt.Receipt.ComputeHash | modules/boundedauth/receipt.go:70-83 | the loop and the two amounts write the receipt's thirteen items after the version, in order |
| Receipt.WriteTexts | modules/boundedauth/receipt.go:73-79 | the loop writes every text once, in order |
| Receipt.HashedFields | modules/boundedauth/receipt.go:70-83 | the fourteen items hashed, by name and in order |
| Receipt.IssuedIs | modules/boundedauth/receipt.go:64-68 | an issued receipt is the same receipt with its time cut to whole microseconds in UTC and the hash of that |
| Receipt.EmptyIsNothing | modules/boundedauth/receipt.go:87-100 | without a hash a receipt is not intact, and without a binding it matches no authority |
| Receipt.SameContentSameBytes | modules/boundedauth/receipt.go:70-83 | nothing but a receipt's content enters the hashed bytes |
| Receipt.PreimageInjective | modules/boundedauth/receipt.go:70-83 | and the hashed bytes determine all of that content, for any two receipts whose times of issue are rendered apart |
| Receipt.AnyAlterationShows | modules/boundedauth/receipt.go:85-89 | an intact receipt altered under its hash stays intact exactly when its content is unchanged, unless the two preimages collide or their times are rendered alike |
| Receipt.IssueIsIdempotent | modules/boundedauth/receipt.go:64-68 | issuing twice is issuing once, and the result is intact |
| Receipt.IntactAfterReload | modules/boundedauth/receipt.go:58-68 | a receipt survives storage at microsecond precision exactly when its time has that precision |
| Receipt.IssuedSurvivesReload | modules/boundedauth/receipt.go:58-68 | every issued receipt survives storage, in any display zone, whatever the hash and the rendering |
| Receipt.MatchesOneTransaction | modules/boundedauth/receipt.go:98-100 | a receipt matches the authority for at most one of any two transactions whose preimages do not collide |
| Authorise.Authorise | modules/boundedauth/store.go:75-97 | over either store: a credential that does not verify leaves the store as it was, with the error of the check that refused; for one that does, the record has the payload's identifier, issuer, subject, method and binding, the transaction's reference and the time of the call, the effect is given that record, it is spent under that store's own guarantee, and accepted exactly if it was |
| Authorise.RunSound | modules/boundedauth/store.go:62-97 | in every run every call that reached the database was made by an accepted presentation, on its record and effect, under a payload its issuer signed |
| Authorise.AcceptedWasMinted | modules/boundedauth/authority.go:278-313 | an accepted credential carries a payload minted by the issuer it names, unless that issuer's key is compromised |
| Authorise.RecordsAreAuthorised | modules/boundedauth/store.go:62-97 | every record the database shows was written by one committed call; its identifier, issuer, subject, method and binding are those of one payload its issuer minted (unless that key is compromised), its reference is the executed transaction's and its time that of the presentation's clock; and no transaction but the executed one has that binding, short of a collision between the two |
| Authorise.EffectsAreAuthorised | modules/boundedauth/store.go:65-69 | every value an effect made visible was written by a committed call, as part of the effect run on its own record, and that record can be found and traced to its issuer |
| Authorise.AuthorityExecutesOnce | modules/boundedauth/store.go:40-44 | two committed calls never cite the same credential identifier |
| Authorise.RepointingBurnsNothing | modules/boundedauth/store.go:71-74 | presenting an accepted credential against any other transaction, unless its preimage collides, is refused and leaves the database unchanged |
| Authorise.ExactlyTheTransaction | modules/boundedauth/authority.go:338-340 | with a hash free of collisions, the binding on record belongs to the executed transaction alone |
| Authorise.CanStillBeSpent | modules/boundedauth/store.go:36-38 | in any reachable world in which every call on an identifier ended without committing, by refusal, failure, fault or panic, an accepted credential for it can still be spent, with its record and every write |
| Instance.HypothesesAreMet | modules/boundedauth/store.go:62-97 | there are parties, none compromised, that meet every hypothesis above, a collision-free hash included, and a run of theirs that spends a credential and shows its effect |
| Instance.RenderIsUnambiguous | modules/boundedauth/receipt.go:76 | there is a rendering of instants that tells all of them apart |
| Ledger.ValidateBalanced | native/financial-core/src/posting.rs:149-167 | the pass over a map of nets succeeds exactly on journals of at least two postings whose per-currency prefix sums stay in i64 and end at zero, and otherwise names a real reason |
| Ledger.Ledger.Post | native/financial-core/src/posting.rs:170-220 | the result and the new books are those of the declarative definition: refused unchanged, answered from the idempotency map, recorded with all postings, or stopped at the first overflow; LedgerRefusals says which, without it |
| Ledger.Ledger.PreCheck | native/financial-core/src/posting.rs:184-205 | the first posting that fails a check decides the error |
| Ledger.Ledger.ApplyAll | native/financial-core/src/posting.rs:207-213 | the loop applies postings in order and stops at the first overflow |
| Ledger.Ledger.OpenAccount | native/financial-core/src/posting.rs:103-114 | the account is there, empty and unfrozen, whatever was there before |
| Ledger.Ledger.CreditOpeningBalance | native/financial-core/src/posting.rs:116-130 | the balance grows by the amount, or nothing changes and the error says why |
| Ledger.Ledger.SetFrozen | native/financial-core/src/posting.rs:132-139 | only the frozen flag of an existing account changes |
| LedgerLaws.ApplyLaw | native/financial-core/src/posting.rs:207-213 | the apply loop goes through exactly when no running balance leaves i64, and then every account has moved by the sum of its deltas and nothing else has changed |
| LedgerLaws.StopsAtFirstMisfit | native/financial-core/src/posting.rs:207-213 | an overflow leaves exactly the postings before the first balance that does not fit |
| LedgerLaws.AllOrNothing | native/financial-core/src/posting.rs:184-219 | an accepted journal is recorded exactly when no running balance overflows, and is all or nothing exactly then or when what was applied nets to zero on every account |
| LedgerLaws.PartialPost | native/financial-core/src/posting.rs:207-213 | a concrete journal that is balanced and funded, is refused, and moves money |
| LedgerLaws.Conservation | native/financial-core/src/posting.rs:149-213 | a recorded journal leaves the total of every currency unchanged, with any number of currencies and of postings per account |
| LedgerLaws.NeverOverflows | native/financial-core/src/posting.rs:184-213 | with non-negative balances and holds, totals at most half of i64, no i64::MIN amount and each account debited at most once, no prefix of the apply loop overflows |
| LedgerLaws.PostIsAtomic | native/financial-core/src/posting.rs:170-220 | under that bound post records the journal with every posting applied or changes nothing, and the bound still holds |
| LedgerLaws.PostKeepsSolvency | native/financial-core/src/posting.rs:84-87 | no journal that debits each account once makes an account insolvent, in any order of postings, even if the loop overflows half way |
| LedgerLaws.SolvencyExactly | native/financial-core/src/posting.rs:184-213 | an accepted journal, with any amounts and whether or not the loop stops half way, leaves all accounts solvent exactly when what the loop applies covers every hold |
| LedgerLaws.SolvencyOfRecorded | native/financial-core/src/posting.rs:199-204 | for a journal that goes through, without an amount of i64::MIN, that is: each account's debits are covered by what was available plus its own credits |
| LedgerLaws.DoubleDebitOverdraws | native/financial-core/src/posting.rs:199-204 | a concrete journal that passes the check and overdraws an account |
| LedgerLaws.MinAmountOverdraws | native/financial-core/src/posting.rs:38-43 | a concrete journal with an amount of i64::MIN that passes the check and overdraws an empty account, in a release build; SolvencyExactly covers all such journals |
| LedgerRuns.LogMatchesInEveryRun | native/financial-core/src/posting.rs:215-219 | in every run the recorded keys are exactly the keys of the journals, one each, with the journal's identifier, and equal in number |
| LedgerRuns.LogGrows | native/financial-core/src/posting.rs:215-219 | the journal list is append-only |
| LedgerRuns.RepostsStutter | native/financial-core/src/posting.rs:175-180 | taking every authorised re-post out of a run gives the same books |
| LedgerRuns.RepostReturnsOriginal | native/financial-core/src/posting.rs:178-180 | every re-post returns the identifier of the one journal the final log holds under its key |
| LedgerRuns.AlwaysSolvent | native/financial-core/src/posting.rs:84-87 | over any sequence of operations with non-negative opening credits and careful journals, no account's available balance is ever negative |
| LedgerRuns.SolvencyStep | native/financial-core/src/posting.rs:103-220 | from solvent books, exactly which operations leave them solvent |
| LedgerRuns.SolvencyThroughout | native/financial-core/src/posting.rs:103-220 | over any run, no account is ever insolvent exactly when every operation keeps it so |
| LedgerRuns.AgreementStep | native/financial-core/src/posting.rs:103-220 | from books in which every balance is its opening credits plus the deltas of the recorded journals, an operation keeps that so exactly when it does not re-open an account that holds money and is not an accepted journal that overflows after applying something that does not cancel out |
| LedgerRuns.AgreementThroughout | native/financial-core/src/posting.rs:103-220 | over any run, with no bound, balances and log agree all the way exactly when every operation is of that kind |
| LedgerRuns.BalancesAgreeWithLog | native/financial-core/src/posting.rs:103-219 | so in every run under the bound, with accounts opened on fresh identifiers, every balance is the opening credits plus the deltas of all recorded journals |
| LedgerRuns.ReopeningBreaksAgreement | native/financial-core/src/posting.rs:103-114 | a concrete run in which re-opening an account in use breaks that agreement; AgreementStep gives the exact condition |
| LedgerRefusals.UnauthorisedRefused | native/financial-core/src/posting.rs:175-177 | without authorisation nothing changes and the error says so, whatever the journal and its key |
| LedgerRefusals.UnbalancedRefused | native/financial-core/src/posting.rs:149-167 | an unbalanced journal changes nothing: too few postings, a running net that overflows, or a currency whose net is not zero |
| LedgerRefusals.PostingStopsJournal | native/financial-core/src/posting.rs:184-205 | a balanced journal with a posting that does not pass changes nothing, and the first such posting decides between account not found, frozen, another currency, and insufficient funds |
| LedgerRefusals.PassingJournal | native/financial-core/src/posting.rs:207-219 | a balanced journal whose postings all pass is recorded under its key and answered with its identifier, or overflows |
| LedgerRefusals.FrozenUntouched | native/financial-core/src/posting.rs:189-191 | no journal changes a frozen account |
| LedgerRefusals.FrozenStopsJournal | native/financial-core/src/posting.rs:189-191 | a balanced journal that names a frozen account changes nothing and is refused, for that account if the postings before it pass |
| LedgerRefusals.FrozenStaysPut | native/financial-core/src/posting.rs:132-220 | over any operations but opening credits to it, re-opening it or thawing it, a frozen account stays exactly as it is |
| LedgerRefusals.LogIsSound | native/financial-core/src/posting.rs:170-220 | in every run each recorded journal was posted with authorisation, has two postings or more, nets to zero in every currency, and each of its postings passed when it was posted |
| OfflineQueue.OfflineQueue.Enqueue | packages/offline-queue/src/index.ts:51-66 | refused without an authorisation reference or by a storage that throws, with nothing changed, and otherwise appends one fresh pending item with the given fields |
| OfflineQueue.OfflineQueue.Flush | packages/offline-queue/src/index.ts:68-120 | sends each non-terminal item exactly once in list order, leaves number, order, identity and all other fields of the items, gives every slot the status and error its answer calls for, and counts add up; a call during a flush does nothing; if the storage throws, the guard is released, the items before that point have had their turn and those after it are untouched |
| OfflineQueue.OfflineQueue.Drain | packages/offline-queue/src/index.ts:83-116 | the loop over the loaded list: each item that is due is sent once in order, each slot shows its answer, and the three counts partition the list, unless a save throws, which stops it at that item |
| OfflineQueue.OfflineQueue.Deliver | packages/offline-queue/src/index.ts:92-114 | one item is marked, in memory and in what is saved, before it is sent; then it shows the answer and is saved; no other item changes; a save that throws ends the turn there |
| OfflineQueue.FlushEdges | packages/offline-queue/src/index.ts:84-113 | synced and rejected items are not sent and stay as they are; every other one is sent and ends as synced with its error as it was, as rejected or failed with the server's error or "rejected" or "unknown", or as failed with the message of the exception, by its own answer alone |
| OfflineQueue.CompletedCounts | packages/offline-queue/src/index.ts:80-116 | after a flush that ran to its end, synced counts the items that became synced, skipped those that were synced or rejected already, and failed the rest |
| OfflineQueue.NextFlushRetries | packages/offline-queue/src/index.ts:84-113 | the next flush sends exactly the items whose send failed retryably, in order |
| OfflineQueue.QuietAfterDefiniteAnswers | packages/offline-queue/src/index.ts:84-113 | if nothing failed retryably only terminal items are left and another flush changes nothing |
| QueueProtocol.StepKeepsInv | packages/offline-queue/src/index.ts:68-120 | every step, crash and restart keeps the invariant tying snapshot, disk and the account of acceptances |
| QueueProtocol.OneSendInFlight | packages/offline-queue/src/index.ts:71-77 | however many calls to flush overlap, at most one waits for the sender |
| QueueProtocol.NeverSentAgain | packages/offline-queue/src/index.ts:84-91 | an item saved as synced or rejected stays so and is never sent again, whatever follows |
| QueueProtocol.AcceptedOncePlusCrashes | packages/offline-queue/src/index.ts:92-114 | an item is accepted at most once more than there were crashes between an accepted send and its save, and a synced item exactly that often |
| QueueProtocol.AcceptedAtMostOnceWithoutCrash | packages/offline-queue/src/index.ts:68-120 | without crashes no item is accepted twice |
| QueueRefinement.FlushRefines | packages/offline-queue/src/index.ts:68-120 | the protocol and the loop over shared objects agree: an undisturbed flush makes exactly the same sends, in the same order, saves the same statuses and releases the guard |
| LengthPrefix.BigEndianRoundTrip | modules/boundedauth/authority.go:165-176 | eight big-endian bytes determine the number they encode |
| LengthPrefix.EightBytes | modules/boundedauth/authority.go:165-176 | the eight bytes of a number, most significant first, are its digits to the base 256 |
| LengthPrefix.DecodeEncode | modules/boundedauth/authority.go:165-176 | every field of a length-prefixed record can be read back, whatever follows it |
| LengthPrefix.EncodeInjective | modules/boundedauth/authority.go:148-151 | records of one shape form a prefix code: equal bytes split in only one way |
| Base64Url.BufferToBase64url | packages/passkeys/src/webauthn.ts:58-63 | the loop and the replacements give the encoded text |
| Base64Url.Base64urlToBytes | packages/passkeys/src/webauthn.ts:65-71 | the loop over the decoded characters gives the bytes, or the error of atob |
| Base64Url.BrowserRoundTrip | packages/passkeys/src/webauthn.ts:58-71 | for every byte sequence decoding undoes encoding, over the URL-safe alphabet without padding or dot, and the padding computed is right |
| Base64Url.BytesToUrlIsRawUrl | packages/passkeys/src/webauthn.ts:58-63 | the browser's encoder agrees with Go's unpadded URL encoding on every input |
| Base64Url.DecodersAgree | packages/passkeys/src/webauthn.ts:65-71 | on text over the URL-safe alphabet the browser's decoder and Go's agree, errors included |
| Base64Url.GoRoundTrip | modules/boundedauth/authority.go:230-232 | Go's decoder undoes Go's encoder on every byte sequence |
| Base64Url.AlphabetIs | packages/passkeys/src/webauthn.ts:62 | the rows of the two alphabets of RFC 4648 |
| Base64Url.GroupValue | packages/passkeys/src/webauthn.ts:62 | three bytes and their four digits are the same 24 bits |
| PaymentLink.ToDeepLink | apps/mobile/lib/paymentLink.ts:39-50 | setting the parameters one by one gives each truthy field once, in order |
| PaymentLink.ToHttpsLink | apps/mobile/lib/paymentLink.ts:52-59 | the same for https links, with the recipient as an encoded path segment |
| LinkText.DeepLinkIs | apps/mobile/lib/paymentLink.ts:39-50 | the text of the deep link of every payload: v, to, name, amount, ccy, note, kind and mid, in this order, the optional ones only where given and not empty |
| LinkText.HttpsLinkIs | apps/mobile/lib/paymentLink.ts:52-59 | the text of the https link of every payload |
| LinkText.FormByteIs | apps/mobile/lib/paymentLink.ts:40-49 | how each byte is written in a query |
| LinkText.PathByteIs | apps/mobile/lib/paymentLink.ts:58 | how each byte is written in the path |
| LinkText.RecipientIs | apps/mobile/lib/paymentLink.ts:29 | one leading "@" of the recipient is dropped |
| LinkText.BuiltIs | apps/mobile/lib/paymentLink.ts:27-36 | amount and note are what was given less the blanks around it, or absent; the currency is GHS and the kind p2p unless given |
| LinkText.HandleParses | apps/mobile/lib/paymentLink.ts:121-128 | a bare handle, with or without "@", is a payment to it, unless it mentions the host of https links |
| LinkText.AnyDeepLink | apps/mobile/lib/paymentLink.ts:72-86 | what a deep link with any parameters is read as, and that without a recipient it is no payment |
| LinkText.AnyHttpsLink | apps/mobile/lib/paymentLink.ts:89-102 | what an https link to any recipient but the dots, with any parameters, is read as |
| LinkText.OtherTextIsNull | apps/mobile/lib/paymentLink.ts:68-130 | blank text, and text that is no link, no document and no handle, is no payment |
| PaymentLink.DeepLinkRoundTrip | apps/mobile/lib/paymentLink.ts:18-86 | parsing a deep link gives back the built payload exactly when the recipient is not empty and no empty display name or merchant ID was given |
| PaymentLink.DeepLinkParses | apps/mobile/lib/paymentLink.ts:66-86 | what parsing a deep link gives for every payload whatever |
| PaymentLink.HttpsLinkRoundTrip | apps/mobile/lib/paymentLink.ts:52-102 | parsing an https link gives back the payload without display name and merchant ID exactly when the recipient is not empty, "." or ".." |
| PaymentLink.HttpsLinkParses | apps/mobile/lib/paymentLink.ts:88-102 | what parsing an https link gives for every payload whatever |
| PaymentLink.DotRecipients | apps/mobile/lib/paymentLink.ts:52-96 | a link to "." comes back as a payment to "r", and a link to ".." cannot be read |
| PaymentLink.EmptyNameIsDropped | apps/mobile/lib/paymentLink.ts:43 | an empty display name comes back as no display name |
| Url.QueryRoundTrip | apps/mobile/lib/paymentLink.ts:40-49 | any list of names and values survives being written as a query string and parsed |
| Url.GetIsFirst | apps/mobile/lib/paymentLink.ts:74-84 | a parameter given twice is read as its first value |
| Url.ComponentRoundTrip | apps/mobile/lib/paymentLink.ts:58-96 | decodeURIComponent undoes encodeURIComponent on every text |
| Url.FormRoundTrip | apps/mobile/lib/paymentLink.ts:40-49 | form decoding undoes form encoding on every text |
| Utf8.RoundTrip | apps/mobile/lib/paymentLink.ts:58-96 | UTF-8 decoding undoes encoding on every text |
| Mood.RoundTrip | apps/mobile/lib/mood.ts:118-178 | over the reals the sextant computation of hsvToHex inverts that of hexToHsv on the whole unit cube, greys included, with hue in [0, 1) and saturation in [0, 1] |
| Mood.HueOf | apps/mobile/lib/mood.ts:170-175 | in each of the six sectors the hue is where the middle channel says |
| Mood.SaturationAndValue | apps/mobile/lib/mood.ts:167-177 | the value is the largest channel, and the saturation the share of it that the smallest lacks |
| Mood.HexRoundTrip | apps/mobile/lib/mood.ts:93-178 | every text that is a colour comes back, through HSV, as the same colour in normal form, and every other text as the fallback |
| Mood.HexOfBytes | apps/mobile/lib/mood.ts:93-104 | hexToRgb undoes rgbToHex on every triple of bytes |
| Mood.HexIsKept | apps/mobile/lib/mood.ts:93-178 | six hexadecimal digits come back, through HSV, as themselves in capitals after "#" |
| Mood.ChannelsOf | apps/mobile/lib/mood.ts:93-98 | the first two digits are red, the next green, the last blue |

## Left out

- JSON text: how `encoding/json` rewrites invalid UTF-8, repeated keys and trailing data is not modelled; payloads are assumed to round-trip only if they are valid UTF-8.
- SHA-256, hexadecimal digests and Ed25519 themselves: replaced by the primitives described above.
- PostgreSQL beyond the unique key: effects that read or lock other rows (so deadlocks between effects), serialisation failures, and commits whose outcome is unknown because the connection was lost.
- PostgresStore.PostgresStore.Consumption: how the TIMESTAMPTZ column rounds is an arbitrary function of the time of consumption.
- PostgresStore.PostgresStore.Consume: an effect that writes on a connection other than its transaction is not modelled.
- MemoryStore.MemoryStore.Consume: a panic in the effect, which unwinds before anything is recorded; an effect that calls back into the store, which would wait for its own lock; and one that keeps its context after it returned.
- Stores other than the two in the repository: Authorise takes either of these.
- The append-only trigger and the secondary indexes of schema.sql, and reading the database from inside an effect.
- Spending a binding, as opposed to an identifier, at most once; receipts agreeing with the amounts of the binding they cite; receipt and binding preimages being disjoint: the code does not decide these.
- services/authgrant/session/session.go: the same mint and verify shape with a longer lifetime.
- LedgerLaws.NeverOverflows: integers behave as in a release build; in a debug build the absolute value of i64::MIN panics where the model wraps.
- Money::new, Money::checked_add, Money::negate and Currency::new: single-branch constructors the ledger does not call; postings here may carry any amount and any currency text.
- Holds: no operation of the source changes them, so runs keep them at zero; the laws of one journal allow any.
- OfflineQueue.OfflineQueue.Flush: a sender that changes the item it is given, and items enqueued while the flush waits (its next save writes back the list it loaded, so they can be lost) are not modelled.
- OfflineQueue.OfflineQueue.Enqueue: the payload is text rather than an arbitrary record.
- QueueProtocol.AcceptedOncePlusCrashes: an acceptance is the sender resolving as ok; a request the server accepted whose answer was lost counts as a retryable failure, and only the server can tell.
- Two queues over one storage, and durable storages other than one that keeps the last saved list.
- PaymentLink.ParsePayPayload: the JSON branch, and URLs that mention the host but do not start with the exact https prefix toHttpsLink writes, are reported as not modelled; the constant version field is left out of payloads.
- Ill-formed UTF-16 in JavaScript strings, where encodeURIComponent throws.
- amountToMinor, validatePaymentIntent, the voice compiler, evaluate_transfer_v0, roles and permissions: single-branch or finite facts.
- Mood.RoundTrip: floating-point rounding; the conversions are over the reals, with the final rounding to bytes modelled. moodFromRgb, normalizeHex and the mood tables are left out.
- Screens, consoles, HTTP clients, the service worker, WebAuthn calls, benchmarks and the fraud-model notebooks.
