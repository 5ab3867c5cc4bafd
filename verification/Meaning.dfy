/** What outputs mean, in the libraries' verdicts and plain numbers only: nothing here refers to how the programs
    or the contract compute anything. */
module Meaning {
  import opened Wrappers
  import opened Msgs
  import opened ProgramTypes

  /* States. */

  /** The ICS form of a contract state: its second, to the nanosecond. */
  function IcsOf(cs: ConsensusState): IcsConsensusState {
    IcsConsensusState(cs.timestamp * 1_000_000_000, cs.root, cs.nextValidatorsHash)
  }

  /** The contract state has the hashes of the ICS state, and its time in whole seconds, as a 64-bit word. */
  predicate Shows(ics: IcsConsensusState, cs: ConsensusState) {
    && cs.root == ics.root
    && cs.nextValidatorsHash == ics.nextValidatorsHash
    && cs.timestamp == ics.time / 1_000_000_000 % 0x1_0000_0000_0000_0000
  }

  /** The contract state a header leads to. */
  predicate LeadsTo(h: Header, cs: ConsensusState) {
    Shows(IcsConsensusState(h.time, h.appHash, h.nextValidatorsHash), cs)
  }

  predicate SameHeight(ics: IcsHeight, h: Height) {
    ics.revisionNumber == h.revisionNumber && ics.revisionHeight == h.revisionHeight
  }

  /* Headers. */

  /** What the library is asked with: the threshold as it is, the period in nanoseconds, no drift. */
  function AskedOptions(env: Env): Options {
    Options(TrustThreshold(env.trustThreshold.numerator, env.trustThreshold.denominator),
            env.trustingPeriod * 1_000_000_000, 0)
  }

  /** The time in nanoseconds, as a 64-bit word. */
  function AskedTime(env: Env): uint64 {
    env.now * 1_000_000_000 % 0x1_0000_0000_0000_0000
  }

  predicate AskedWell(lib: Library, env: Env) {
    lib.parsesChainId(env.chainId) && lib.validThreshold(env.trustThreshold)
  }

  /** The library verified this header from the output's trusted state, in the output's environment; the heights of the
      output are the header's, and its new state is the one the header leads to. */
  predicate VerifiedHeader(lib: Library, o: UpdateClientOutput, h: Header) {
    && AskedWell(lib, o.env)
    && o.trustedConsensusState.timestamp <= 253402300799
    && lib.verifyHeader(IcsOf(o.trustedConsensusState), h, o.env.chainId, AskedOptions(o.env), AskedTime(o.env))
    && SameHeight(h.trustedHeight, o.trustedHeight)
    && SameHeight(h.height, o.newHeight)
    && LeadsTo(h, o.newConsensusState)
  }

  /* Answers. */

  /** A Merkle proof of the answer: of absence for the empty value, of the value itself otherwise. */
  predicate Proves(lib: Library, root: Bytes32, path: Path, value: Bytes, proof: MerkleProof) {
    && (value == [] ==> lib.verifyNonMembership(proof, root, path))
    && (value != [] ==> lib.verifyMembership(proof, root, path, value))
  }

  /** Some Merkle proof verifies this answer under the root. */
  ghost predicate Proven(lib: Library, root: Bytes32, path: Path, value: Bytes) {
    exists proof :: Proves(lib, root, path, value, proof)
  }

  /** 1 to 255 pairs, each of them proven under the root. */
  ghost predicate ProvenPairs(lib: Library, root: Bytes32, pairs: seq<KVPair>) {
    1 <= |pairs| <= 255 && forall pair :: pair in pairs ==> Proven(lib, root, pair.path, pair.value)
  }

  lemma ProvenMeans(lib: Library, root: Bytes32, path: Path, value: Bytes)
    ensures Proven(lib, root, path, []) <==> exists proof :: lib.verifyNonMembership(proof, root, path)
    ensures value != [] ==>
              (Proven(lib, root, path, value) <==> exists proof :: lib.verifyMembership(proof, root, path, value))
  {
    forall proof
      ensures Proves(lib, root, path, [], proof) <==> lib.verifyNonMembership(proof, root, path)
      ensures value != [] ==>
                (Proves(lib, root, path, value, proof) <==> lib.verifyMembership(proof, root, path, value))
    {
    }
  }

  /* Misbehaviour. */

  /** The states the library gets to see for the two headers: of two at one height, only the second is left. */
  predicate LibrarySees(
    e: Evidence, trusted1: IcsConsensusState, trusted2: IcsConsensusState, used1: IcsConsensusState,
    used2: IcsConsensusState)
  {
    && used1 == (if e.header1.trustedHeight.revisionHeight == e.header2.trustedHeight.revisionHeight
                 then trusted2 else trusted1)
    && used2 == trusted2
  }

  /** The library found these headers to misbehave, from the states it got to see, in the output's environment; the
      heights of the output are the headers' trusted heights. */
  predicate VerifiedMisbehaviour(
    lib: Library, o: MisbehaviourOutput, e: Evidence, used1: IcsConsensusState, used2: IcsConsensusState)
  {
    && AskedWell(lib, o.env)
    && o.env.chainId == e.header1.chainId
    && lib.verifyMisbehaviour(used1, used2, e, o.env.chainId, AskedOptions(o.env), AskedTime(o.env))
    && lib.isMisbehaviour(e.header1, e.header2)
    && SameHeight(e.header1.trustedHeight, o.trustedHeight1)
    && SameHeight(e.header2.trustedHeight, o.trustedHeight2)
  }

  /** The two trusted states of the output went in, and headers were verified from what the library saw of them. */
  predicate MisbehaviourBehind(
    lib: Library, o: MisbehaviourOutput, e: Evidence, used1: IcsConsensusState, used2: IcsConsensusState)
  {
    && o.trustedConsensusState1.timestamp <= 253402300799 && o.trustedConsensusState2.timestamp <= 253402300799
    && LibrarySees(e, IcsOf(o.trustedConsensusState1), IcsOf(o.trustedConsensusState2), used1, used2)
    && VerifiedMisbehaviour(lib, o, e, used1, used2)
  }
}
