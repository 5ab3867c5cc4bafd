# Verified model of the SP1 ICS-07 Tendermint light client

The repository puts an ICS-07 Tendermint light client on Ethereum. A contract, `SP1ICS07Tendermint`, stores one hash per
height of the counterparty chain. Four zkVM programs verify headers, membership and misbehaviour off chain, and the
contract accepts their outputs together with an SP1 proof. The work is split: the programs trust whatever consensus
state they are given, and the contract must check that it is one it stored.

This project models both halves and proves what each keeps, what they guarantee together over every run, and that the
contract's economies (hashes instead of states, a cache of verified proofs, one call for update and membership) cannot
be observed.

## Layout

| file | content |
|---|---|
| `Wrappers.dfy`, `Msgs.dfy` | results and checks; the Solidity structs with their integer widths, and digests |
| `KvSearch.dfy` | finding a path among a proof's pairs: the loop with the `uint8` counter |
| `ClientSpec.dfy` | each call as a transaction on storage, and runs of transactions |
| `SP1ICS07Tendermint.dfy` | the contract as a class that writes before it checks and rolls back on a revert |
| `Ics07Client.dfy`, `Refinement.dfy` | the ICS-07 client with full states and no cache; the contract refines it |
| `Reverts.dfy` | the rules of every call, in order, and the reason of every revert |
| `Invariants.dfy` | what every run keeps; freezing; what a client can do as deployed |
| `Composition.dfy` | combined call against two calls; proofs submitted again; updates in any order |
| `ProgramTypes.dfy`, `Meaning.dfy` | the programs' types and libraries; what outputs mean, in library verdicts and plain numbers, apart from how anything is computed |
| `Conversions.dfy` | seconds and nanoseconds, 32 and 64 bits |
| `Programs.dfy`, `Streams.dfy` | the four programs and their input streams, with prover-side writers |
| `Commits.dfy` | what each program commits on a given stream, and what it can commit at all |
| `Soundness.dfy`, `EndToEnd.dfy` | the assumption on the proof system, and the theorems about contract and programs together |
| `Examples.dfy` | concrete clients on which three expected properties fail |
| `Signatures.dfy` | ordering a commit's signatures by power |

## How things are modelled

- A digest is a free constructor over what was hashed, so keccak256 is injective and never the zero word. A genesis word
  with no known pre-image is `Unknown`.
- The verifier is a fixed predicate on SP1 proofs, and `abi.decode` of public values a partial function per output
  struct. Both are arbitrary: the theorems in `KvSearch`, `ClientSpec`, `Refinement`, `Invariants` and `Composition`
  assume nothing about them.
- `Step` is one transaction. A revert keeps the storage it started from by construction; the class writes storage first
  and restores a snapshot, and each of its entry points is proved equal to `Step`, in result, error and storage.
- The meaning of an output is stated apart from the code: `Meaning` uses library verdicts and plain numbers only, and
  `Reverts` lists the rules of each call in stored words, numbers and indices. The programs and the contract are proved
  equivalent to them, so that no constant, field order, branch or error kind rests on its own definition.
- A run is a list of calls with block times. `Deploy` feeds one to a contract object and reaches `Run`.
- `Soundness.Sound` is the assumption about the proof system: the verifier accepts a proof under a program's key only if
  the program, on some input stream, committed the output that the public values decode to.
- The libraries the programs call (ibc-rs, tendermint-rs, ICS-23) are arbitrary verdicts. Four assumptions on them are
  named, and each theorem lists those it uses: `VerifiesHeaders` (a verified header has the chain's revision, a greater
  height than its trusted one, a later time that is not past the host's, and a trusted state unexpired at host time),
  `AnswersOnce` (a root fixes one answer per path), `VerifiesOnly` (verification from a true state accepts only the
  chain's headers), `FindsNoMisbehaviour` (from true states no misbehaviour is found). The last two are made for a
  `Scene` only: a chain, the client deployed to follow it, and a time span. They say nothing of other chain ids, trust
  levels or trusting periods, of a trusting period beyond the unbonding period, or of host times more than 3000 seconds
  before the span or after it; that nobody can get the contract to accept those is proved. The span can be the one of
  any run, and one that ends by second 18446744073 leaves out the times at which the host time has wrapped. The clients
  of `Examples` meet all assumptions together with `Sound`.
- The full-state client of `Ics07Client` follows the contract in one point where the ICS-07 standard differs: an update
  whose state is already stored is a NoOp before the proof is looked at, where the standard verifies the header first.
- Overflowing `uint8` arithmetic panics, as in Solidity 0.8; the programs' `u64` product wraps, as in a Rust release
  build.

## What the proofs found

- **An update resubmitted within one second freezes the client.** The test `contracts/test/UpdateClient.t.sol:81-95`
  expects a repeated update to be a NoOp, and `contracts/src/SP1ICS07Tendermint.sol:445-446` explains the other branch by
  a timestamp that does not increase. But timestamps are whole seconds: a header within its trusted state's second is
  recorded by the first call and freezes the client on the second. `ResubmittedUpdate` gives
  the exact condition, `WhenSecondsMove` says it of header times, `SameSecondExample` is a concrete run, and
  `ChainFreezesOnlyWithinASecond` shows that over any run nothing else freezes a client that follows an honest chain.
- **A known update needs no proof.** `updateClient` returns NoOp before it asks the verifier.
  `OnlyKnownUpdatesNeedNoProof` gives the exact condition, and in `NoProofExample` a rejected proof returns NoOp.
- **The constructor accepts clients that can never do anything.** `AliveExactly` and `ChangeableExactly` say which
  parameters leave a client able to answer at all, and able to change.
- **The combined call skips one check that the plain call makes**, on the revision number. `CombinedIsTwoCalls` says
  when that matters, in terms of the state before, and `RevisionExample` is a client where it does. With sound proofs it
  never does, even on a client deployed with a wrong revision number (`CombinedIsTwoCallsWhenSound`).
- **The contract admits 256 pairs, the programs at most 255.** With 256 pairs and no match the loop counter overflows
  instead of reporting a missing key; sound proofs never get there (`LengthErrorsMeanRejectedProofs`).
- **The trusting period holds up to the year 2554 and never after.** The programs' host time is exact up to second
  18446744073 (`HostTimestampExact`). Every update accepted with a later time starts from a state that expired long ago:
  `VerifiedHeaderIsValid` and `StoredStatesAreTimely` state the bound as an if-and-only-if, and `WrappedTimeExample`
  records such an update.
- **Plain proofs of several pairs never go stale** (`PlainBatchReplay`): they carry no time, and stay cached.

## Model

| member | source | states |
|---|---|---|
| KvSearch.FirstValueIsFirst | contracts/src/SP1ICS07Tendermint.sol:205-222 | the reference search returns exactly the value at the first index with the path, and nothing exactly when no index has it |
| KvSearch.PathsEqual | contracts/src/utils/Paths.sol:9-22 | the length and element loop decides equality of paths |
| KvSearch.SearchPairs | contracts/src/SP1ICS07Tendermint.sol:205-222 | for 1 to 256 pairs the loop passes exactly when the first pair with the path has the value, and overflows its counter exactly with 256 pairs and no match; its verdict is `Search` (the same loop stands at lines 304-323) |
| SP1ICS07TendermintContract.SP1ICS07Tendermint.constructor | contracts/src/SP1ICS07Tendermint.sol:60-77 | storage starts with the given client state and one hash at its latest height |
| SP1ICS07TendermintContract.SP1ICS07Tendermint.UpdateClient | contracts/src/SP1ICS07Tendermint.sol:98-124 | writing latest height, hash or frozen flag before the verifier is asked, with rollback, is the transaction that checks first |
| SP1ICS07TendermintContract.SP1ICS07Tendermint.Membership | contracts/src/SP1ICS07Tendermint.sol:130-143 | both proof types, with rollback of everything a failed call wrote, cache entry included |
| SP1ICS07TendermintContract.SP1ICS07Tendermint.SubmitMisbehaviour | contracts/src/SP1ICS07Tendermint.sol:147-161 | freezes exactly after all checks and the verifier passed, else storage is unchanged |
| SP1ICS07TendermintContract.SP1ICS07Tendermint.HandleSP1MembershipProof | contracts/src/SP1ICS07Tendermint.sol:176-234 | same result, same first error and same new storage as the specification |
| SP1ICS07TendermintContract.SP1ICS07Tendermint.HandleSP1UpdateClientAndMembership | contracts/src/SP1ICS07Tendermint.sol:244-332 | the same, against a specification without the closing check: that check never decides anything |
| SP1ICS07TendermintContract.SP1ICS07Tendermint.VerifySP1ProofCached | contracts/src/SP1ICS07Tendermint.sol:462-470 | passes for a cached or accepted proof, and caches exactly a newly accepted one |
| SP1ICS07TendermintContract.Deploy | contracts/src/SP1ICS07Tendermint.sol:60-161 | a contract object fed any list of calls returns the results and reaches the storage that the run theorems speak of |
| Refinement.StepRefines | contracts/src/SP1ICS07Tendermint.sol:98-332 | one call of the contract and of the ICS-07 client with full states give the same answer and stay related |
| Refinement.ForwardSimulation | contracts/src/SP1ICS07Tendermint.sol:60-332 | over every run, from every genesis word, reverted calls included: same answers, and the stored word at a height is the digest of the full client's state there |
| Refinement.ReachableCacheSound | contracts/src/SP1ICS07Tendermint.sol:462-470 | in every reachable state a cached digest is that of an accepted proof |
| Refinement.CacheUnobservable | contracts/src/SP1ICS07Tendermint.sol:227-231 | storages that differ only in which accepted proofs they have cached answer alike and stay so |
| Refinement.CacheTransparency | contracts/src/SP1ICS07Tendermint.sol:455-470 | over every run the contract that caches and one whose cache is emptied after every call return the same results and hold the same client state and hashes |
| Refinement.CachedExactly | contracts/src/SP1ICS07Tendermint.sol:455-470 | in every reachable state the cached proofs are exactly those that some successful membership call of the run carried for several pairs |
| Reverts.EnvReasons | contracts/src/SP1ICS07Tendermint.sol:400-427 | an environment passes exactly with now at most block time at most now + 3000, the client's chain id, trust level and trusting period, and that within the unbonding period; the first check that fails gives the reason |
| Reverts.RevertReasons | contracts/src/SP1ICS07Tendermint.sol:98-470 | every call of every type succeeds exactly when it meets all the rules listed for it, and reverts with the reason of the first that it breaks |
| Invariants.StepExtends | contracts/src/SP1ICS07Tendermint.sol:98-332 | one call overwrites or removes no hash, changes no parameter, moves the latest height only up, keeps it the greatest stored one, and reverts when frozen |
| Invariants.RunMonotone | contracts/src/SP1ICS07Tendermint.sol:98-332 | the same between any two points of a run |
| Invariants.MapInvariants | contracts/src/SP1ICS07Tendermint.sol:75-124 | from a nonzero genesis word: the latest height is the greatest stored one, the genesis word stays, and all points of the run are ordered |
| Invariants.StuckRun | contracts/src/SP1ICS07Tendermint.sol:85-91 | a client that stores no state's digest, or is frozen, reverts every call of every run and keeps its storage |
| Invariants.AliveExactly | contracts/src/SP1ICS07Tendermint.sol:60-77 | some call of some run succeeds if and only if the genesis word is a consensus state's digest and the client is not deployed frozen |
| Invariants.ChangeableExactly | contracts/src/SP1ICS07Tendermint.sol:424-426 | some run changes the client state or the hashes if and only if, besides, the trusting period is at most the unbonding period |
| Invariants.StepFreezes | contracts/src/SP1ICS07Tendermint.sol:115-161 | a call freezes exactly when it is a conflicting accepted update or accepted misbehaviour, both from stored states; a membership call never does |
| Invariants.FrozenExactlyOnEvidence | contracts/src/SP1ICS07Tendermint.sol:115-161 | a reachable client is frozen if and only if genesis was or some call of the run brought such evidence |
| Invariants.FrozenIsFinal | contracts/src/SP1ICS07Tendermint.sol:346-378 | once frozen, every call reverts and storage stays what it is |
| Composition.CombinedIsTwoCalls | contracts/src/SP1ICS07Tendermint.sol:244-332 | with proofs of its halves, an update (new or known) and then a plain membership call succeed exactly when the combined call does and, in the state before, the new height has the client's revision number or is new and passes its latest height; then timestamp, client state and hashes agree |
| Composition.RevisionExample | contracts/src/SP1ICS07Tendermint.sol:185-192 | a client on which the combined call succeeds, the update alone succeeds, and the plain call then reverts |
| Composition.ClosingCheckPasses | contracts/src/SP1ICS07Tendermint.sol:325-356 | after a recorded or known update the closing membership check passes |
| Composition.ResubmittedUpdate | contracts/src/SP1ICS07Tendermint.sol:435-451 | after any run, an update submitted again reverts exactly when the client is frozen or the block is not fresh, is a NoOp exactly when otherwise its second is later than the trusted one, and freezes in the remaining case |
| Composition.OnlyKnownUpdatesNeedNoProof | contracts/src/SP1ICS07Tendermint.sol:98-121 | an update passes a verifier that rejects everything exactly when it is well formed, current, and its new state is stored already at a later second than the trusted one; that is when it is a NoOp |
| Examples.NoProofExample | contracts/src/SP1ICS07Tendermint.sol:117-121 | a concrete deployment that meets all named assumptions, where a proof the verifier rejects returns NoOp |
| Composition.BatchReplay | contracts/src/SP1ICS07Tendermint.sol:280-323 | after a combined call with several pairs and any run, its proof serves exactly the path and first value of each pair, exactly while the client is not frozen, in a fresh block, if the second moved; storage does not change, and a verifier that rejects everything gives the same answer |
| Composition.PlainBatchReplay | contracts/src/SP1ICS07Tendermint.sol:225-231 | after a plain call with several pairs and any run, its proof serves exactly the path and first value of each pair at any time, exactly while the client is not frozen and has the asked revision, with no storage change and no verifier |
| Composition.UpdatesCommute | contracts/src/SP1ICS07Tendermint.sol:98-124 | updates acceptable now, for distinct heights, are all recorded in every order, and every order ends in the same storage |
| Conversions.ConversionsMean | packages/solidity/src/lib.rs:73-112 | a state converts to exactly the contract state with the same two hashes, each in its place, and the floor of its seconds as a 64-bit word, and back within the dates up to second 253402300799 |
| Conversions.SolRoundTrip | packages/solidity/src/lib.rs:73-112 | a contract state converts exactly when its second has a date, and then comes back as it was |
| Conversions.IcsRoundTrip | packages/solidity/src/lib.rs:73-112 | an ICS state comes back cut to its second, and exactly when it is not before the epoch |
| Conversions.SecondsAreMonotone | packages/solidity/src/lib.rs:85-90 | seconds keep the order of times, strictly exactly when a second begins in between |
| Conversions.HostTimestampExact | programs/update-client/src/types/validation.rs:61-63 | the wrapping 64-bit product is exact precisely up to second 18446744073 |
| Conversions.HostTimestampWraps | programs/misbehaviour/src/types/validation.rs:66-68 | past that second it is short by at least one round of the word |
| Conversions.ComparisonsAgree | programs/misbehaviour/src/types/validation.rs:66-68 | up to then the programs' comparisons in nanoseconds agree with comparisons in seconds |
| Conversions.NarrowWiden | packages/solidity/src/lib.rs:132-141 | a height narrows to exactly the height that widens to it |
| Programs.UpdateClientOutputs | programs/update-client/src/lib.rs:23-59 | the program outputs o exactly when o carries its inputs and the header verified from o's trusted state has o's heights and new state |
| Programs.NewStateIsTheHeaders | programs/update-client/src/lib.rs:48-58 | the new state has the header's app hash as root and the header's next validators hash, and its time divided by 10^9 exactly when that is an unsigned 64-bit number |
| Programs.UpdateClientCommits | programs/update-client/src/main.rs:25-43 | the outputs that some input stream yields are exactly those with a verified header behind them |
| Programs.MembershipOutputs | programs/membership/src/lib.rs:22-57 | going through the requests one by one, up to the first that fails, succeeds exactly when the library verifies absence for every item with an empty value and existence of the value for every other, and gives the pairs in order |
| Meaning.ProvenMeans | programs/membership/src/lib.rs:28-46 | a proven answer is one with a verified proof of absence if it is empty, and of that very value if it is not |
| Programs.MisbehaviourOutputs | programs/misbehaviour/src/lib.rs:23-89 | the program outputs o exactly when o carries the environment and the two states it was given, each in its place, and the library found the evidence to misbehave from what the two-entry map makes of them |
| Programs.CollapsedMap | programs/misbehaviour/src/lib.rs:42-51 | the second header always gets its own trusted state, the first exactly when the heights differ or the states are one |
| Streams.ParsedItems | programs/membership/src/main.rs:31-44 | n items are read from exactly the streams that have them in a row as path, value and proof, and the rest is left |
| Streams.MembershipRoundTrip | operator/src/prover.rs:107-117 | 1 to 255 items and no others can be written; the reader recovers them in order and leaves nothing, exactly for a root of 32 bytes |
| Streams.CombinedRoundTrip | operator/src/prover.rs:154-175 | the same for the combined layout |
| Streams.WriteMembership | operator/src/prover.rs:107-117 | the writer builds the specified stream, or none for a count outside one byte |
| Streams.WriteCombined | operator/src/prover.rs:154-175 | the same for the combined layout |
| Streams.WriteUpdateClient | operator/src/prover.rs:57-76 | the stream is the trusted state, the header and the environment, in that order |
| Streams.WriteMisbehaviour | operator/src/prover.rs:201-217 | the stream is the environment, the evidence and the first and second trusted state, in that order |
| Streams.ReadMembership | programs/membership/src/main.rs:24-44 | the reader consumes exactly what parsing says, and fails exactly when it does |
| Streams.ReadCombined | programs/uc-and-membership/src/main.rs:29-59 | the same for the combined layout |
| Streams.UpdateClientProgram | programs/update-client/src/main.rs:25-43 | reading and decoding buffer by buffer commits what the main function says |
| Streams.MisbehaviourProgram | programs/misbehaviour/src/main.rs:23-50 | the same for the four buffers |
| Streams.MembershipProgram | programs/membership/src/main.rs:23-46 | reading and verifying each request before the next is read commits what reading all of them first does |
| Streams.UcAndMembershipProgram | programs/uc-and-membership/src/main.rs:28-62 | the same, with the update before the first request is read |
| Commits.UpdateClientOnStream | programs/update-client/src/main.rs:25-43 | on any stream, the program commits o exactly when the first buffer is o's trusted state, the third its environment, and the second a header verified for o |
| Commits.UpdateClientArrives | operator/src/prover.rs:57-76 | the stream the prover writes makes the program run on that state, header and environment, exactly if the state's second has a date |
| Commits.MembershipOnStream | programs/membership/src/main.rs:23-49 | on any stream, the program commits o exactly when the first buffer is o's root, the first byte of the second the number of its pairs, and the buffers after it are their paths, values and proofs, in order, each verified under the root |
| Commits.UcAndMembershipOnStream | programs/uc-and-membership/src/main.rs:28-65 | the same for the combined program: the update's three buffers, the count, and requests verified under the new root |
| Commits.MisbehaviourOnStream | programs/misbehaviour/src/main.rs:23-50 | on any stream, the program commits o exactly when the first buffer is o's environment, the third and fourth its first and second trusted state, and the second evidence that misbehaves from them |
| Commits.MisbehaviourArrives | operator/src/prover.rs:201-217 | the stream the prover writes gives the program that environment, that evidence and those states, the first as first and the second as second, exactly if both seconds have a date |
| Commits.MembershipCommittable | programs/membership/src/main.rs:23-49 | the outputs that some input stream yields are exactly those of 1 to 255 pairs, each proven under the root |
| Commits.UcAndMembershipCommittable | programs/uc-and-membership/src/lib.rs:15-41 | the outputs that some input stream yields are exactly those with a verified header behind the update and 1 to 255 pairs proven under the new root |
| Commits.MisbehaviourCommittable | programs/misbehaviour/src/lib.rs:23-89 | the outputs that some input stream yields are exactly those with headers that misbehave, verified from what the two-entry map makes of the two trusted states |
| Streams.TransmitMembership | programs/membership/src/main.rs:24-46 | writer then reader: the list as it was, nothing unread |
| Streams.TransmitCombined | programs/uc-and-membership/src/main.rs:29-62 | the same for the combined layout |
| Soundness.VerifiedHeaderIsValid | programs/update-client/src/lib.rs:30-58 | in 32-bit heights and whole seconds: same revision, greater height, trusted second at most new second at most now; the trusted state is unexpired if and only if now is at most 18446744073 |
| Soundness.WhenSecondsMove | programs/update-client/src/lib.rs:48-58 | header time passes the trusted time always, its second exactly when the header is not within the trusted second |
| Soundness.AcceptedUpdateHeader | programs/uc-and-membership/src/lib.rs:21-40 | behind every update output of an accepted proof, plain or combined, there is a verified header |
| Soundness.AcceptedMembership | programs/membership/src/main.rs:27-48 | an accepted membership proof has 1 to 255 pairs; under the committed root a found empty value has a verified proof of absence, and any other found value a verified proof of it |
| Soundness.AcceptedUcAndMembership | programs/uc-and-membership/src/lib.rs:21-40 | the same for a combined proof, under the root of the new consensus state |
| EndToEnd.TrustChain | contracts/src/SP1ICS07Tendermint.sol:104-124 | in every reachable state a finite chain of accepted updates leads from genesis to each stored hash, over stored states |
| EndToEnd.ChainLinks | contracts/src/SP1ICS07Tendermint.sol:360-371 | such a chain starts at genesis and each update starts where the one before it ended |
| EndToEnd.ChainAscends | programs/update-client/src/lib.rs:36-58 | with sound proofs heights strictly rise along the chain, seconds do not fall, and it is no longer than the height gained |
| EndToEnd.GenesisIsLeast | contracts/src/SP1ICS07Tendermint.sol:104-124 | no state is stored below genesis or older than it |
| EndToEnd.RevisionSettles | contracts/src/SP1ICS07Tendermint.sol:111-113 | over every run the client's revision number is the one it was deployed with or its chain's, and it is its chain's once more than the genesis height is stored |
| EndToEnd.CombinedIsTwoCallsWhenSound | programs/uc-and-membership/src/lib.rs:21-40 | on every reachable client, whatever revision number it was deployed with, the combined call succeeds exactly when the two calls do, with equal timestamp, client state and hashes |
| EndToEnd.StoredStatesAreTimely | contracts/src/SP1ICS07Tendermint.sol:400-427 | a newly stored state comes from an accepted update from a stored state, with trusted second at most its second at most the proof's now at most block time at most now + 3000; block time is below trusted second + trusting period + 3000 if and only if now is at most 18446744073 |
| EndToEnd.NothingFromTheFuture | contracts/src/SP1ICS07Tendermint.sol:400-406 | with a clock that does not go back, no stored state but genesis is later than the last block |
| EndToEnd.AnswersAgree | contracts/src/SP1ICS07Tendermint.sol:176-356 | two successful membership calls of a run at one height, of either type and at any points, return the same timestamp and accept the same value, or absence both, for one path |
| EndToEnd.LengthErrorsMeanRejectedProofs | contracts/src/SP1ICS07Tendermint.sol:200-222 | the length error and the counter overflow only ever hit proofs the verifier rejects |
| EndToEnd.MisbehaviourUsedStoredStates | programs/misbehaviour/src/lib.rs:42-88 | for an accepted misbehaviour message and every input that commits its output, the map gives each header the state supplied for it, and that is the one the contract stores at its trusted height, also when both heights coincide; with sound proofs there is such an input |
| EndToEnd.CheckedEnvIsAdmitted | contracts/src/SP1ICS07Tendermint.sol:400-427 | the six environment checks leave only the client's own chain id, trust level and trusting period, the latter within the unbonding period, and times from 3000 seconds before the first block of the run to the last |
| EndToEnd.TracksTheChain | contracts/src/SP1ICS07Tendermint.sol:98-427 | from a true genesis state, whoever submits what, every stored hash is that of the chain's own state, if verification is right in the environments those checks leave |
| EndToEnd.AnswersComeFromTheChain | programs/membership/src/lib.rs:16-63 | under the same assumption, every successful membership call is proven under the chain's root at its height and returns the chain's timestamp |
| EndToEnd.OnlySameSecondUpdatesFreeze | contracts/src/SP1ICS07Tendermint.sol:435-451 | an update freezes a client that follows the chain exactly when it is current, accepted, for a stored height and within its trusted second |
| EndToEnd.ChainFreezesOnlyWithinASecond | contracts/src/SP1ICS07Tendermint.sol:98-161 | over every run, a client that follows a chain that does not misbehave is frozen if and only if genesis was or some call was such an update |
| Examples.SameSecondExample | contracts/src/SP1ICS07Tendermint.sol:435-451 | a concrete deployment that meets all named assumptions, where the same update is recorded first and freezes the client next |
| Examples.WrappedTimeExample | programs/update-client/src/types/validation.rs:61-63 | a concrete deployment that meets all named assumptions, where an update from a state expired for centuries is recorded |
| Signatures.PowerMeans | operator/src/rpc.rs:99-114 | what a signature is sorted by is the power of its validator's last entry, for the block or for nil alike, and 0 for an absent signature or an address without entry |
| Signatures.SortSignaturesByValidatorsPowerDesc | operator/src/rpc.rs:95-116 | the in-place sort leaves the specified stable order: the same signatures, none counting less than a later one in their validators' own powers |
| Signatures.SortDescIsStable | operator/src/rpc.rs:105-115 | that order is a permutation, descending in power, and keeps the order of signatures of one power |
| Signatures.SortDescIsTheStableSort | operator/src/rpc.rs:105-115 | it is the only stable descending order, so any stable sort computes it |
| Signatures.PrefixOptimal | operator/src/rpc.rs:95-116 | the first k signatures carry at least the power of any k, so any threshold is reached with the fewest |

## Left out

- The parameters of the contract's errors: only the kind of error is modelled.
- `upgradeClient`, `abiPublicTypes` and the getters: they always revert, do nothing, or read one field.
- The enum check for unknown proof types: `abi.decode` already rejects them, so that branch cannot run.
- Collisions of keccak256, gas, and calls into the contract from the verifier (it is a view call).
- The zkVM, the PLONK verifier and the program keys: one acceptance predicate stands for them.
- Header verification, validator sets and signatures, and ICS-23 proofs: library code, present as verdicts with the named assumptions.
- Bincode, CBOR, protobuf and ABI encodings: decoders are arbitrary, and coders that round-trip where a theorem says so.
- Narrowing of trust thresholds in the operator's genesis, RPC calls, the operator loop, fixtures and scripts.
- Signatures.SortSignaturesByValidatorsPowerDesc: the standard library's sort is modelled as an insertion sort; that any stable sort gives the same order is proved.
