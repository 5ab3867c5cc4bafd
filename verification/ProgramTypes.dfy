/** The ICS-07 types of the programs, the libraries they call, and the encodings of their inputs. */
module ProgramTypes {
  import opened Wrappers
  import opened Msgs

  datatype IcsHeight = IcsHeight(revisionNumber: uint64, revisionHeight: uint64)

  /** The time is in nanoseconds since the Unix epoch, negative before it. */
  datatype IcsConsensusState = IcsConsensusState(time: int, root: Bytes, nextValidatorsHash: Bytes)

  /** A Tendermint header with its trusted height. The rest holds commit and validator sets. */
  datatype Header = Header(
    chainId: string,
    height: IcsHeight,
    time: int,
    appHash: Bytes,
    nextValidatorsHash: Bytes,
    trustedHeight: IcsHeight,
    rest: Bytes)

  datatype Evidence = Evidence(header1: Header, header2: Header)

  datatype MerkleProof = MerkleProof(encoded: Bytes)

  /** Durations are in nanoseconds. */
  datatype Options = Options(trustThreshold: TrustThreshold, trustingPeriod: nat, clockDrift: nat)

  datatype Item = Item(path: Path, value: Bytes, proof: MerkleProof)

  /** The verdicts of the libraries the programs call. */
  datatype Library = Library(
    parsesChainId: string -> bool,
    revisionNumber: string -> uint64,
    validThreshold: TrustThreshold -> bool,
    verifyHeader: (IcsConsensusState, Header, string, Options, uint64) -> bool,
    verifyMisbehaviour: (IcsConsensusState, IcsConsensusState, Evidence, string, Options, uint64) -> bool,
    isMisbehaviour: (Header, Header) -> bool,
    verifyMembership: (MerkleProof, Bytes32, Path, Bytes) -> bool,
    verifyNonMembership: (MerkleProof, Bytes32, Path) -> bool)

  datatype Coder<!T> = Coder(encode: T -> Bytes, decode: Bytes -> Option<T>)

  /** The encodings of the inputs. */
  datatype Codec = Codec(
    consensusState: Coder<ConsensusState>,
    header: Coder<Header>,
    env: Coder<Env>,
    evidence: Coder<Evidence>,
    path: Coder<Path>,
    proof: Coder<MerkleProof>)

  ghost predicate Faithful<T(!new)>(coder: Coder<T>) {
    forall x: T :: coder.decode(coder.encode(x)) == Some(x)
  }

  ghost predicate FaithfulCodec(c: Codec) {
    && Faithful(c.consensusState) && Faithful(c.header) && Faithful(c.env)
    && Faithful(c.evidence) && Faithful(c.path) && Faithful(c.proof)
  }
}
