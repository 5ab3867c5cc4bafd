/** The contract's structs, with Solidity's integer widths, and the digests it stores. */
module Msgs {
  import opened Wrappers

  type uint8 = x: int | 0 <= x < 0x100
  type uint32 = x: int | 0 <= x < 0x1_0000_0000
  type uint64 = x: int | 0 <= x < 0x1_0000_0000_0000_0000

  type Bytes = seq<uint8>
  type Bytes32 = b: Bytes | |b| == 32 witness seq(32, _ => 0)
  type Path = seq<Bytes>

  datatype Height = Height(revisionNumber: uint32, revisionHeight: uint32)

  datatype TrustThreshold = TrustThreshold(numerator: uint8, denominator: uint8)

  datatype ClientState = ClientState(
    chainId: string,
    trustLevel: TrustThreshold,
    latestHeight: Height,
    trustingPeriod: uint32,
    unbondingPeriod: uint32,
    isFrozen: bool)

  datatype ConsensusState = ConsensusState(timestamp: uint64, root: Bytes32, nextValidatorsHash: Bytes32)

  datatype Env = Env(chainId: string, trustThreshold: TrustThreshold, trustingPeriod: uint32, now: uint64)

  datatype UpdateClientOutput = UpdateClientOutput(
    trustedConsensusState: ConsensusState,
    newConsensusState: ConsensusState,
    env: Env,
    trustedHeight: Height,
    newHeight: Height)

  datatype KVPair = KVPair(path: Path, value: Bytes)

  datatype MembershipOutput = MembershipOutput(commitmentRoot: Bytes32, kvPairs: seq<KVPair>)

  datatype UcAndMembershipOutput = UcAndMembershipOutput(
    updateClientOutput: UpdateClientOutput,
    kvPairs: seq<KVPair>)

  datatype MisbehaviourOutput = MisbehaviourOutput(
    env: Env,
    trustedHeight1: Height,
    trustedHeight2: Height,
    trustedConsensusState1: ConsensusState,
    trustedConsensusState2: ConsensusState)

  datatype SP1Proof = SP1Proof(vKey: Bytes32, publicValues: Bytes, proof: Bytes)

  // A payload that abi.decode rejects is None.

  datatype SP1MembershipProof = SP1MembershipProof(sp1Proof: SP1Proof, trustedConsensusState: ConsensusState)

  datatype MembershipProof =
    | Plain(plain: Option<SP1MembershipProof>)
    | WithUpdate(withUpdate: Option<SP1Proof>)

  datatype MsgMembership = MsgMembership(
    proof: Option<MembershipProof>,
    proofHeight: Height,
    path: Path,
    value: Bytes)

  datatype UpdateResult = Update | Misbehaviour | NoOp

  datatype Error =
    | MalformedAbi
    | VerificationKeyMismatch
    | FrozenClientState
    | ProofIsInTheFuture
    | ProofIsTooOld
    | ChainIdMismatch
    | TrustThresholdMismatch
    | TrustingPeriodMismatch
    | TrustingPeriodTooLong
    | ConsensusStateHashMismatch
    | ConsensusStateNotFound
    | LengthIsOutOfRange
    | MembershipProofValueMismatch
    | MembershipProofKeyNotFound
    | ConsensusStateRootMismatch
    | CannotHandleMisbehavior
    | ProofHeightMismatch
    | CounterOverflow      // the panic of checked arithmetic, when the uint8 loop counter passes 255
    | InvalidProof         // the revert of the SP1 verifier

  /** keccak256 as a free constructor per kind of pre-image: injective, and never the zero word.
      A word with no pre-image of these kinds is Unknown. */
  datatype Digest =
    | Zero
    | Unknown(word: nat)
    | ConsensusStateHash(consensusState: ConsensusState)
    | ProofHash(sp1Proof: SP1Proof)

  /** abi.decode of the public values, one decoder per output struct. */
  datatype Abi = Abi(
    updateClient: Bytes -> Option<UpdateClientOutput>,
    membership: Bytes -> Option<MembershipOutput>,
    ucAndMembership: Bytes -> Option<UcAndMembershipOutput>,
    misbehaviour: Bytes -> Option<MisbehaviourOutput>)

  /** The immutables of a deployed contract: four program keys and the verifier's verdicts. */
  datatype Deployment = Deployment(
    updateClientVKey: Bytes32,
    membershipVKey: Bytes32,
    ucAndMembershipVKey: Bytes32,
    misbehaviourVKey: Bytes32,
    accepts: SP1Proof -> bool,
    abi: Abi)
}
