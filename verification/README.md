# Praesidio guardian: verified model

This project models the guardian pipeline of Praesidio in Dafny 4.11 and proves what its parts promise
together. `dafny verify dfyconfig.toml` checks all of it.

The pipeline has three parts. The **registry** contract keeps guards, their policies and an append-only
ledger of signed actions. The **enclave** reads a registry state, which may be stale, and the liquidation
factors of a vault; for an active guard in danger it signs the next action. The **relay service** walks over
all guards, asks the enclave, checks nonce and signer again, and posts. The contract by itself accepts nonce
gaps and any amount. The main result is that the three parts together keep every ledger gap-free and backed
by the committed policy, under stale reads, retries, reposts, several relayers, policy changes and pauses
(`GuardianSystem`); that policy is the one last accepted from the guard's owner before the enclave's read
(`Committed`). `RelayRuns` says exactly which guards gain a row in one undisturbed pass, whatever
fails, and `Pipeline` writes the steps of such a pass out and proves that they are a run of the whole system.
`LiveRelays` cuts the pass into its reads, questions, posts and mined blocks and lets any number of services
and anyone else interleave with it; the guarantees hold all the same. Four other algorithms of the repository
follow: resumable registration, the promise-chain serializer, header insertion into a list under iteration,
and the hex and text codec with handler dispatch.

## How it is modelled

- Contracts and objects that the source updates in place are classes (`GuardianRegistry`, `Extension`,
  `GuardianService`, `Registrar`, `Server`, `CheatList`, `Framework`). Each method is proved to perform a
  function on the object's value, and the theorems are about those functions, over all runs.
- Keccak is the identity on its preimage, so different actions having different digests is a theorem about
  the packing (`Digest.DigestInjective`). `ecrecover` and a key's signing function are parameters.
- Chain reads, clocks, network failures, failing saves and the scheduler are parameters over which every
  theorem quantifies. A chain read in `GuardianSystem` returns any past state.
- The relay reads nonces from JSON as binary64 numbers; `JsonNumber` models the rounding.

Hypotheses of the whole-run theorems, stated in their `requires`:

- `UnforgedRun`: a post whose signature recovers to the current guardian signer carries a digest that the
  enclave signed before under that key. This is unforgeability, together with guardian keys being used only
  for enclave actions. As no enclave key has address zero, it also says that nothing is accepted while the
  signer is still unset. All enclave reads are of the one registry of the run.
- `SoundKey`, for acceptance, reposts and interleaved services: signing yields 65 bytes with low s and recovery
  id 0 or 1 that recover to the key's address.
- `AskedByTickRun`, only where vaults are compared: checks are requested as relay services request them.
  Anyone may ask the enclave about any vault; `Requests` says what follows without this hypothesis.
- `GrantedRun`, for interleaved services: nobody else forges, `SoundKey` of enclave keys, and no forgery by a
  post that does not carry what was signed, because its nonce was rounded or the enclave signed for another
  chain (`LiveRelayRuns.CarriesSignedIff`). All other posts need no such hypothesis.
- `Selects`, for passes of the service: CHAIN_ID selects the registry's chain (`Enclave.PrintedSelects`).

Three promises hold only under a condition, and are proved with it. A signed action can be relayed exactly when
the next nonce is below 2^64 and a multiple of the binary64 spacing at its size (`RelayRuns.RelayableIff`,
with 2^53 + 1 as the first nonce lost in `JsonNumber.FirstLost`). A resumed registration does each step
exactly once if and only if in every failed attempt the last effect, if there was one, was acknowledged and
then saved (`RegistrationRuns.ExactlyOnceIffKept`, with repeated steps in `LostSaveRepeatsStep` and
`LostReplyRepeatsStep`); at least once, and in order, it does them all the same (`AtLeastOnceInOrder`).
Ledger rows carry the signature of a guardian once a signer is set (`RegistryRuns.LedgersSignedOnceSet`);
before that `guardianSigner` is the zero address, which is also what ecrecover answers when it recovers nobody.

## Files

| file | content |
|---|---|
| `Prelude.dfy` | machine integers, Option, Result |
| `BigEndian.dfy`, `Decimal.dfy`, `JsonNumber.dfy`, `Digest.dfy` | byte, decimal and number paths, the signed digest |
| `Registry.dfy`, `RegistryRuns.dfy`, `RegistryEffects.dfy` | the contract, what it keeps over all call sequences, and what calls write |
| `Enclave.dfy`, `EnclaveAnswers.dfy`, `Counters.dfy` | checks and signing; what is answered and signed; the counters under concurrency |
| `GuardianSystem.dfy`, `Requests.dfy`, `Committed.dfy` | the whole pipeline as a state machine; what a check request decides; where amounts come from |
| `Relay.dfy`, `RelayRuns.dfy`, `RelayHealth.dfy`, `Retry.dfy` | one undisturbed pass of the service; its health endpoint; withRetry |
| `Pipeline.dfy` | the pass as a run of the whole system, and reposts after it |
| `LiveRelays.dfy`, `LiveRelayRuns.dfy` | services interleaved with everyone else, and what they guarantee |
| `LivePass.dfy` | the undisturbed pass as one of these interleavings |
| `Registration.dfy`, `RegistrationRuns.dfy`, `RegistrationEffects.dfy` | resumable registration: series of attempts, and what one attempt may do |
| `Serializer.dfy`, `SerializerRuns.dfy` | the promise-chain serializer |
| `GroupHeaders.dfy`, `GroupHeadersRuns.dfy` | sort order and header insertion |
| `Hex.dfy`, `Utf8.dfy`, `Dispatch.dfy` | hex, bytes32 and text codec; handler registry |

## Model

| member | source | states |
|---|---|---|
| GuardianSystem.LedgersGapFree | contracts/src/GuardianRegistry.sol:182-206 | after any interleaving of registry calls by anyone, stale-read checks and reposts, each guard's nonces are exactly 1..k and lastActionNonce is k, although a post only has to exceed the last nonce |
| GuardianSystem.LedgersBacked | tee/go/internal/extension/extension.go:168-200 | every ledger row goes back to an enclave signature that saw exactly the rows before it, an active guard and a non-zero factor, carries the non-zero amount committed in the state it read, and was made while the ledger still held those rows only |
| Committed.RowsCarryLastPolicy | contracts/src/GuardianRegistry.sol:133-159 | the amount of every row is the one its guard's owner had last set, by an accepted setPolicy or at registration, among the calls before the state the enclave read |
| Committed.HistoryIsExecution | contracts/src/GuardianRegistry.sol:120-207 | the k-th state of any run is what its first k calls made of the deployed registry |
| GuardianSystem.LedgersBackedByOwnDanger | backend/service.mjs:118-123 | when relays ask, the danger behind each row was read for the guard's own vault |
| Requests.RowsGoBackToRequests | tee/go/internal/extension/extension.go:153-200 | whoever asks: behind every row stands a check of the run, made while the ledger held the rows before, and its danger was the guard's own exactly if its request named the guard's own vault |
| Requests.NamedVaultDecides | tee/go/internal/extension/extension.go:153-200 | the vault of a request is not compared with the guard's: danger of whatever vault it names leads, without forgery, to the guard's next row |
| GuardianSystem.StepKeepsSound | contracts/src/GuardianRegistry.sol:120-207 | every single step, call or check, keeps history, events, gap-freedom and backing |
| GuardianSystem.PostedRow | contracts/src/GuardianRegistry.sol:186-205 | the digest behind an accepted post fixes all fields of the new row and shows that no row was added since the enclave's read, so none since it signed |
| GuardianSystem.AcceptedContinues | tee/go/internal/extension/extension.go:191 | a nonce derived from a past state, with uint64 wrap, that still exceeds the current one is the current one plus one |
| GuardianSystem.SigningGenuine | tee/go/internal/extension/extension.go:190-196 | a check signs only what it read: active guard, non-zero factor, committed amount, next nonce |
| GuardianSystem.DangerReadOfOwnVault | contracts/src/GuardianRegistry.sol:134-143 | over any run of relay-asked checks every signature names its guard's present vault, for a registered vault never changes |
| RelayRuns.SignedActionAccepted | contracts/src/GuardianRegistry.sol:182-239 | an enclave signature for any amount below 2^256, carried as decimal text and JSON, is accepted if and only if the guard exists, the registry is unpaused, the key is the signer and the nonce is fresh |
| RelayRuns.CallCarriesAction | backend/service.mjs:160-165 | amount and nonce survive decimal text and JSON on the way to postAction |
| RelayRuns.CallIs | backend/service.mjs:160-165 | the call takes the action's fields as they parse, and there is none exactly when amount or nonce does not fit its ABI type |
| RelayRuns.RelayableIff | backend/service.mjs:148-152 | the relay's nonce comparison passes for the enclave's next nonce exactly when it neither wrapped nor lost precision |
| RelayRuns.PassLedgers | backend/service.mjs:89-181 | one pass with arbitrary failures: exactly which guards gain a row, at most one each, and which row; a failed nonce re-read costs later guards theirs; nothing else in storage moves but those guards' nonces |
| RelayRuns.UndisturbedPass | backend/service.mjs:108-181 | without failures, on an unpaused registry whose signer is the enclave's sound key, exactly those active guards in danger gain one row whose next nonce is below 2^64 and a multiple of the binary64 spacing: type 1, the policy amount, that nonce; other ledgers are unchanged |
| RelayRuns.VisitEffect | backend/service.mjs:108-180 | one iteration adds at most its own guard's row and abandons the pass only on a failed re-read |
| RelayHealth.PassHealth | backend/service.mjs:89-130 | after a pass the endpoint shows the number of guards and whether the enclave was reachable when last asked; a pass throws exactly when one of its first two reads or a nonce re-read fails |
| RelayHealth.VisitHealth | backend/service.mjs:109-170 | per guard: reachable as the enclave just was, one more check if it answered, one more post if a receipt came |
| Pipeline.PassIsRun | backend/service.mjs:89-181 | the written-out steps of a pass, one check for each answer and one transaction for each post mined, accepted or not, meet the no-forgery condition without cryptographic assumptions, ask only about own vaults, end in the storage of the pass and record exactly the signatures the enclave gave away |
| Pipeline.PassCounts | backend/service.mjs:125-170 | these steps are as many as the service counts: checks performed, and actions posted or left without a receipt |
| Pipeline.PassThenReposts | backend/service.mjs:158-179 | whoever posts the signatures of a pass afterwards, posted by it or not, in any order and number, between any other calls and checks, the whole still meets the no-forgery condition and stays sound |
| Pipeline.PostUnforged | backend/service.mjs:153-165 | whatever the service sends, accepted or reverted, is what the enclave has just signed under the current signer |
| LiveRelayRuns.LiveIsRun | backend/service.mjs:89-181 | any number of services with stale reads, late, repeated or lost posts and anyone's moves in between are together one run of the system that meets the no-forgery condition, and asks only about own vaults if nobody else asks otherwise |
| LiveRelayRuns.LiveLedgersGapFree | backend/service.mjs:183-195 | so every ledger stays gap-free however they interleave, whatever anyone asks the enclave |
| LiveRelayRuns.LiveLedgersBacked | backend/service.mjs:118-165 | and every row goes back to an enclave signature, whoever asked for it |
| LiveRelayRuns.LiveLedgersBackedByOwnDanger | backend/service.mjs:118-165 | over a danger read of the guard's own vault, if others ask as relay services do |
| LiveRelayRuns.MinedRowIff | backend/service.mjs:158-169 | exactly when a post gains a row, whatever happened since it was sent: unpaused, the guard exists, its key is the signer now and no row came in since the enclave's read |
| LiveRelayRuns.OnePostPerGuard | backend/service.mjs:108-165 | in one pass a service sends at most one post per guard, in the order of the guards |
| LiveRelayRuns.SentAfterRecheck | backend/service.mjs:143-156 | whatever is sent is for its own guard, under a nonce that was the next in some past state and a signer that was once set |
| LiveRelayRuns.CarriesSignedIff | backend/service.mjs:160-165 | a post carries what was signed exactly when the chain is the signed one and the nonce survived JSON |
| LivePass.PassIsLive | backend/service.mjs:89-181 | the undisturbed pass is one of the interleavings |
| Relay.GuardianService.Tick | backend/service.mjs:89-181 | the loop over guard ids, with its health counters, is the function the theorems are about |
| Relay.GuardianService.VisitOne | backend/service.mjs:109-141 | reading a guard, asking the enclave, and what each failure leaves behind |
| Relay.GuardianService.RelayOne | backend/service.mjs:141-179 | nonce re-read, signer check, post, and the posted counter |
| Retry.WithRetry | backend/service.mjs:57-71 | at most n calls, first success or last error, and the exact range of the total wait |
| RegistryRuns.VaultsAndGuardsCorrespond | contracts/src/GuardianRegistry.sol:80-84 | in every reachable state ids 1..guardCount are the guards, both indexes are mutually inverse, vaults are distinct, the zero vault has no id and policies are non-zero |
| RegistryRuns.LedgersAppendOnly | contracts/src/GuardianRegistry.sol:197-205 | over any further calls ledgers keep their rows, nonces strictly increase and the last is lastActionNonce |
| RegistryRuns.NoReplay | contracts/src/GuardianRegistry.sol:186-197 | a nonce accepted once for a guard is rejected in every later state, whatever is sent |
| RegistryRuns.OnlyGuardianWritesLedgers | contracts/src/GuardianRegistry.sol:182-239 | a ledger changes only by one row at its end, unpaused, for a type in use, under a higher nonce and a 65-byte low-s signature over all its fields that recovers to guardianSigner, which is the zero address until a signer is set |
| RegistryRuns.LedgersSignedOnceSet | contracts/src/GuardianRegistry.sol:107-111 | once a signer was set, in all later states ledgers grow only under the signature of a non-zero signer |
| RegistryRuns.GuardOwnersControl | contracts/src/GuardianRegistry.sol:120-171 | guards appear only for new vaults their sender owns; policy and activity change only by the guard's owner and unpaused; vault and owner never change |
| RegistryRuns.OwnerControlsRuns | contracts/src/GuardianRegistry.sol:96-116 | over any run the contract's owner stays, and without a call by the owner so do the signer and the pause switch |
| RegistryRuns.StepKeepsInvariant | contracts/src/GuardianRegistry.sol:107-207 | every call keeps the invariant and never takes back a guard, vault, owner, row or nonce |
| RegistryEffects.PolicyIsLastSet | contracts/src/GuardianRegistry.sol:120-159 | in every reachable state a guard's ratio and top-up are those of its last accepted setPolicy, or of its registration |
| RegistryEffects.ActivityIsLastSet | contracts/src/GuardianRegistry.sol:134-171 | and it is active as its owner last said, or since its registration |
| RegistryEffects.OwnerSettingsAreLastSet | contracts/src/GuardianRegistry.sol:107-116 | signer and pause switch are as the contract's owner last set them |
| RegistryEffects.SetPolicyEffect | contracts/src/GuardianRegistry.sol:148-159 | exactly when setPolicy is accepted; then both values are the guard's and nothing else differs |
| RegistryEffects.SetGuardActiveEffect | contracts/src/GuardianRegistry.sol:161-171 | exactly when setGuardActive is accepted; then the flag is the guard's and nothing else differs |
| RegistryEffects.RegisterEffect | contracts/src/GuardianRegistry.sol:120-145 | exactly when a registration is accepted; then the next id has a fresh active guard with these values and the block's time, and the vault has the id |
| RegistryEffects.OwnerCallEffect | contracts/src/GuardianRegistry.sol:107-116 | exactly when the owner's two calls are accepted, and the value they set |
| RegistryEffects.PostActionEffect | contracts/src/GuardianRegistry.sol:176-207 | exactly when a post is accepted; then the row with the block's time ends the ledger, its nonce is the guard's, and nothing else differs |
| RegistryEffects.RevertsBecause | contracts/src/GuardianRegistry.sol:96-207 | a call reverts with an error exactly when that is the first check to fail |
| RegistryEffects.HalfOrderIs | contracts/src/GuardianRegistry.sol:225-239 | the bound on s is half of the order of secp256k1 |
| Registry.GuardianRegistry.constructor | contracts/src/GuardianRegistry.sol:90-94 | a deployed registry is empty, unpaused, without signer, owned by its deployer |
| RegistryEffects.DeployedReadsZero | contracts/src/GuardianRegistry.sol:75-94 | a deployed registry reads as zero for every guard, vault and ledger |
| Registry.GuardianRegistry.SetGuardianSigner | contracts/src/GuardianRegistry.sol:107-111 | owner only, never back to zero; new storage or the error |
| Registry.GuardianRegistry.SetPaused | contracts/src/GuardianRegistry.sol:113-116 | owner only; new storage or the error |
| Registry.GuardianRegistry.RegisterAgentVault | contracts/src/GuardianRegistry.sol:120-145 | all checks in order, then the next id with both indexes; new storage or the error |
| Registry.GuardianRegistry.SetPolicy | contracts/src/GuardianRegistry.sol:148-159 | guard owner only, non-zero values; new storage or the error |
| Registry.GuardianRegistry.SetGuardActive | contracts/src/GuardianRegistry.sol:161-171 | guard owner only; new storage or the error |
| Registry.GuardianRegistry.PostAction | contracts/src/GuardianRegistry.sol:176-207 | all checks in order, then nonce and row; new storage or the error |
| Registry.GuardianRegistry.ReadGuard | contracts/src/GuardianRegistry.sol:82 | the public getter, zero for unknown ids |
| Enclave.Extension.CheckVault | tee/go/internal/extension/extension.go:153-203 | the answer depends only on the inputs; last vault, last decision and the two uint64 counters move exactly as the reads, the danger, the guard and the key say, also when signing fails |
| Enclave.SignTopUpAction | tee/go/internal/extension/extension.go:209-240 | the signed record, or the key error |
| Enclave.SignsOnlyActiveInDanger | tee/go/internal/extension/extension.go:168-200 | a check signs if and only if the guard is active and a factor is non-zero, and then the policy amount under the next nonce |
| EnclaveAnswers.SignsForSelectedChain | tee/go/internal/extension/extension.go:190-240 | what a check signs, field by field and byte by byte: a top-up of the amount read, for the guard named and the chain CHAIN_ID selects, under the nonce after the one read, wrapping after 2^64 - 1 |
| EnclaveAnswers.SignsForNumberedChain | tee/go/internal/extension/extension.go:219-222 | with a number in CHAIN_ID the record is for that chain, and for 114 if it is zero or beyond 64 bits |
| Enclave.PrintedSelects | tee/go/internal/extension/extension.go:219-222 | a printed chain id selects its chain |
| EnclaveAnswers.AnswerIs | tee/go/internal/extension/extension.go:153-203 | each error exactly under its condition; healthy, decision and the flag say whether there is danger; signed exactly for an active guard in danger |
| EnclaveAnswers.ReportReadsBack | tee/go/internal/extension/guard_rpc.go:52-122 | every field of a report reads back as the number the chain answered |
| Enclave.DecisionAgreesWithFlag | tee/go/internal/extension/guard_rpc.go:80-119 | for all 256-bit factors the decision through a 64-bit parse equals the liquidatable flag |
| Enclave.ReadVaultHealth | tee/go/internal/extension/guard_rpc.go:52-122 | the report filled read by read equals the one its reads determine, or fails if one fails |
| Counters.SnapshotOrdered | tee/go/internal/extension/extension.go:51-62 | in every interleaving of the two locked sections a state read shows at most as many signatures as checks |
| Counters.SignedAfterChecked | tee/go/internal/extension/extension.go:183-200 | signatures counted plus those pending never exceed checks counted |
| Counters.CountersCount | tee/go/internal/extension/extension.go:186-198 | the uint64 counters are the section counts modulo 2^64 |
| Digest.DigestInjective | contracts/src/GuardianRegistry.sol:188-193 | equal digests agree in chain, guard, type, amount and nonce |
| Digest.PreimageDecodes | tee/go/internal/extension/guard_rpc.go:219-229 | the preimage has 160 bytes and decodes to the five values |
| Digest.DigestCovers | contracts/src/GuardianRegistry.sol:188-193 | byte by byte: 0x19, the text of EIP-191 for 32 bytes, and 160 bytes that decode to the five values |
| Digest.CoveredIsDigest | tee/go/internal/extension/guard_rpc.go:219-234 | bytes of this form are the digest of their action |
| Digest.PackedIff | backend/digest.mjs:31-47 | the 160-byte strings that pack some action are exactly those whose type and nonce words are in range |
| Digest.RegistryDigest | tee/go/internal/extension/guard_rpc.go:219-234 | the enclave's hand-packed digest, from text amount and other argument order, is the contract's: the EIP-191 prefix and the five values, with amount zero for a text that is no number |
| BigEndian.LeftPadWord | tee/go/internal/extension/guard_rpc.go:240-245 | the filled buffer is the ABI word, digit by digit, for every 256-bit value |
| BigEndian.WordRoundTrip | tee/go/internal/extension/guard_rpc.go:236-245 | encoding then reading a word is the identity below 2^256 |
| BigEndian.WordRoundTripBack | contracts/src/GuardianRegistry.sol:228-231 | reading any 32 bytes then encoding is the identity |
| Decimal.PrintParse | tee/go/internal/extension/guard_rpc.go:224-227 | decimal printing and parsing are inverse at every magnitude |
| Decimal.SaturatingParseKeepsPositivity | tee/go/internal/extension/extension.go:170-172 | a 64-bit parse with its error dropped keeps positivity |
| Decimal.SaturatingParse | tee/go/internal/extension/extension.go:170-171 | a printed number parses to itself or to 2^64 - 1, any other text to zero |
| Decimal.FormatPrice | tee/go/internal/extension/guard_rpc.go:202-213 | the padding loop produces quotient, point and padded remainder for every int8 scale |
| Decimal.PriceTextPrices | tee/go/internal/extension/guard_rpc.go:202-213 | for a positive scale the only point stands that many places before the end, all digits without it are the raw value, and there is no zero too many in front; for a negative one the text is the value and .0 |
| Decimal.PriceReadsBack | tee/go/internal/extension/guard_rpc.go:202-213 | a reader who leaves out the point gets the raw value back, so printing is injective for a fixed scale |
| JsonNumber.ToDoubleNearest | backend/service.mjs:149 | the modelled JSON.parse rounds to nearest: no 53-bit significand times a power of two is nearer, and ties go to an even significand |
| JsonNumber.ToDoubleRepresentable | backend/service.mjs:149 | what it returns is itself such a number |
| JsonNumber.SpacingIs | backend/service.mjs:149 | the spacing is the power of two that makes the number a 53-bit multiple, or 1 below 2^53 |
| JsonNumber.SurvivesIffRepresentable | backend/service.mjs:149 | a number survives JSON exactly when binary64 holds it |
| JsonNumber.FirstLost | backend/service.mjs:85 | everything up to 9007199254740992 survives, 9007199254740993 does not |
| Registration.Registrar.RegisterNode | tee/tools/pkg/fccutils/registration.go:59-172 | one attempt is the function the theorems are about: its on-chain effects, also those of steps that took effect although their call failed, and its file, which a write may tear and whose deletion may fail |
| Registration.Registrar.Attest | tee/tools/pkg/fccutils/registration.go:74-124 | steps r and R: skip with the saved id, fail without effect, take effect and fail, or take effect, remember and save |
| Registration.Registrar.CheckAvailability | tee/tools/pkg/fccutils/registration.go:126-155 | step a: skip with the saved id, fail without effect, take effect and fail, or take effect, remember and save; the argument otherwise |
| RegistrationEffects.EffectsMade | tee/tools/pkg/fccutils/registration.go:59-172 | every effect of a series was made in an attempt that was ready, for a selected step that was not refused; every availability check in one whose signing policy was consistent |
| RegistrationEffects.TryIsLicit | tee/tools/pkg/fccutils/registration.go:59-172 | the same of one attempt; one that is not ready, or finds a torn file, changes neither chain nor file and fails |
| RegistrationEffects.InconsistentPolicyStops | tee/tools/pkg/fccutils/registration.go:131-140 | with an inconsistent policy no check is sent, and an attempt that would have to send one fails |
| RegistrationEffects.SucceedsIff | tee/tools/pkg/fccutils/registration.go:59-172 | exactly when an attempt succeeds |
| RegistrationEffects.FileAfterTry | tee/tools/pkg/fccutils/registration.go:48-57 | what an attempt leaves in the state file: the saved step with its id, a torn file, the file of before, or none |
| RegistrationRuns.ExactlyOnceIffKept | tee/tools/pkg/fccutils/registration.go:59-172 | in any failing series that ends in success each selected step took effect exactly once and in order if and only if in every failed attempt nothing took effect or the last effect was acknowledged and saved |
| RegistrationRuns.AtLeastOnceInOrder | tee/tools/pkg/fccutils/registration.go:59-172 | whatever acknowledgements and saves were lost, success means that every selected step took effect, in order |
| RegistrationRuns.LostReplyRepeatsStep | tee/tools/pkg/support/support.go:194-200 | after a lost acknowledgement the next attempt repeats the step although every save succeeds |
| RegistrationRuns.SameAsUninterrupted | tee/tools/pkg/fccutils/registration.go:73-171 | such a series has on-chain exactly the effects, inputs and outputs of one uninterrupted run, and leaves the same file if it is deleted at the end |
| RegistrationRuns.ProgressIsPrefix | tee/tools/pkg/fccutils/registration.go:99-148 | a state file that parses always names a prefix of the selected steps |
| RegistrationRuns.TornFileBlocks | tee/tools/pkg/fccutils/registration.go:33-43 | a torn state file stops every later attempt before its first step |
| RegistrationRuns.LostSaveRepeatsStep | tee/tools/pkg/fccutils/registration.go:101-103 | after a lost save the next attempt repeats the step |
| Serializer.Server.Serialize | tee/typescript/src/base/server.ts:184-191 | chaining and queue update are the function on the promise graph |
| SerializerRuns.OneAtATimeInOrder | tee/typescript/src/base/server.ts:179-191 | in every interleaving at most one handler runs, they start in arrival order, once each, after all before are settled, and each caller gets its own outcome |
| SerializerRuns.NoHandlerWedges | tee/typescript/src/base/server.ts:180-190 | after any history, without new arrivals a run is bounded by the measure and can stop only when all handlers are settled |
| SerializerRuns.StepOrderly | tee/typescript/src/base/server.ts:184-191 | every move keeps the promise chain in its canonical shape |
| SerializerRuns.MoveDecreases | tee/typescript/src/base/server.ts:186-189 | every move but an arrival lowers the measure, whether handlers return or throw |
| SerializerRuns.NeverStuck | tee/typescript/src/base/server.ts:180-190 | while a handler is unfinished some move is possible |
| GroupHeaders.CheatList.PrefixWithGroupHeaders | contracts/lib/forge-std/scripts/vm.py:138-150 | the loop over the growing list ends and leaves the list with its headers, or stops at an empty group |
| GroupHeadersRuns.HeadersErase | contracts/lib/forge-std/scripts/vm.py:138-150 | removing the first item of each group restores the original list |
| GroupHeadersRuns.FirstIsHeader | contracts/lib/forge-std/scripts/vm.py:146-149 | the first item of each group is a header directly before the group's first cheatcode |
| GroupHeadersRuns.OneHeaderPerGroup | contracts/lib/forge-std/scripts/vm.py:139-144 | as many headers as distinct groups |
| GroupHeadersRuns.GroupsContiguous | contracts/lib/forge-std/scripts/vm.py:47-54 | after the sort each group is one block |
| GroupHeaders.CmpAntisymmetric | contracts/lib/forge-std/scripts/vm.py:125-134 | the comparison is antisymmetric and zero exactly on equal keys |
| GroupHeaders.CmpTransitive | contracts/lib/forge-std/scripts/vm.py:125-134 | the comparison is transitive |
| GroupHeadersRuns.CmpIsLexicographic | contracts/lib/forge-std/scripts/vm.py:125-134 | group, then status, then safety, then id, each ascending by the first differing code point |
| GroupHeadersRuns.HeaderText | contracts/lib/forge-std/scripts/vm.py:146-159 | the text of a header for every group name, and that only declaration and description differ from the cheatcode's |
| Hex.HexToBytes | tee/typescript/src/base/encoding.ts:16-35 | the array loop decodes, or reports which check failed |
| Hex.BytesToHex | tee/typescript/src/base/encoding.ts:38-42 | the accumulated string is the prefixed digits |
| Hex.EncodesHighDigitFirst | tee/typescript/src/base/encoding.ts:38-42 | the high digit of a byte comes first, in lower case |
| Hex.TrimBytes32 | tee/typescript/src/base/encoding.ts:64-73 | the trimmed bytes, none for malformed hex |
| Utf8.Bytes32HexToString | tee/typescript/src/base/encoding.ts:64-74 | the text those bytes decode to |
| Utf8.DecodesText | tee/typescript/src/base/encoding.ts:50-74 | every text of scalar values survives UTF-8 encoding and decoding |
| Utf8.DecodedIsEncoded | tee/typescript/src/base/encoding.ts:74 | bytes that decode without a replacement character are the encoding of what they decode to, so malformed bytes never pass unnoticed |
| Utf8.AsciiKept | tee/typescript/src/base/encoding.ts:74 | whatever stands around them, ASCII bytes decode to themselves and nothing else does |
| Utf8.TextRoundTrip | tee/typescript/src/base/encoding.ts:50-74 | a text of at most 32 bytes comes back from its identifier exactly when it neither ends in a zero character nor starts with a byte order mark |
| Hex.DecodeEncode | tee/typescript/src/base/encoding.ts:16-42 | decode after encode is the identity |
| Hex.EncodeDecode | tee/typescript/src/base/encoding.ts:16-42 | encode after decode is the prefixed lower-case text |
| Hex.DecodeRejects | tee/typescript/src/base/encoding.ts:16-27 | odd length exactly for an odd number of digits after the prefix, non-hex exactly for an even number with another character among them |
| Hex.Bytes32RoundTrip | tee/typescript/src/base/encoding.ts:50-74 | an identifier comes back exactly when it does not end in a zero byte |
| Hex.SlotsCollideIff | tee/typescript/src/base/encoding.ts:50-58 | two identifiers share a slot exactly when they differ only in trailing zero bytes |
| Hex.SlotIs | tee/typescript/src/base/encoding.ts:50-58 | a slot is 32 bytes of hex, the identifier first and zeros behind it; an identifier has one exactly up to 32 bytes |
| Dispatch.Framework.Handle | tee/typescript/src/base/types.ts:96-102 | an overlong identifier throws without effect, others append; after any calls the handlers are the table of these calls |
| Dispatch.Framework.Lookup | tee/typescript/src/base/types.ts:105-124 | after any calls of handle, throwing ones included, and for every hex spelling of the two identifiers or an empty text: the first handler registered for this type and command, else the first for the type without a command, else none; a text that spells no identifier matches nothing |
| Dispatch.DispatchesToFirstMeant | tee/typescript/src/base/types.ts:96-116 | the same of the table of every registration sequence, for all spellings on the wire |
| Dispatch.InterleavingIrrelevant | tee/typescript/src/base/types.ts:109-114 | how exact and wildcard registrations were interleaved does not matter |
| Dispatch.NormalizeCanonical | tee/typescript/src/base/types.ts:120-124 | a text is looked up as the canonical form of a word exactly when it is one of its hex spellings |

## Left out

- Registry.GuardianRegistry.constructor: deploying with a zero AssetManager reverts and creates no object, so it is a precondition here.
- RegistryRuns.NoReplay: says that the post is rejected, not with which error, since a paused registry answers first.
- Relay.GuardianService.Tick: nobody else writes to the registry during the pass; interleaved passes are state machines on values (LiveRelays), not this method. A pass starts with fewer than 2^53 guards, as the service counts ids in a JavaScript number.
- RelayRuns.PassLedgers: which guards gain a row is told of an undisturbed pass; with other writers in between LiveRelayRuns.MinedRowIff tells it post by post.
- Counters.SnapshotOrdered: fewer than 2^64 checks, beyond which the uint64 counter itself wraps.
- Registration.Registrar.RegisterNode: the sleeps between steps are not modelled; a log that cannot be read is a lost acknowledgement. All attempts of a series select the same steps. A process killed under way is a failed attempt, except between its last save and the deletion of the file when no promotion is selected.
- Hex.TrimBytes32: ends with the trimmed bytes; Utf8.Bytes32HexToString decodes them.
- Utf8.TextRoundTrip: texts are sequences of scalar values; a lone surrogate in a JavaScript string is replaced before encoding.
- Serializer.Server.Serialize: promise identity and job order follow ECMA-262; the extra jobs by which a handler's own promise is adopted are the arbitrary delay between its answer and its settling.
- Elliptic curves and Keccak: signing and recovery are parameters and the hash is symbolic.
- JSON-RPC, HTTP, environment parsing and ABI unpacking: replaced by answers that may be missing.
- The AssetManager, the price feed and the machine manager contracts: external, so only their answers appear.
- Amount texts with a sign or spaces: the programs only ever pass on printed natural numbers.
- Case mapping of characters outside ASCII: hex and the group names are ASCII.
- The partition by safety and the printing in vm.py, request routing and result assembly in the servers, the Python port, the web console and deployment scripts: they surround the parts modelled here.
