/** The contract: it writes storage as it goes, and a revert restores what the call started from. */
module SP1ICS07TendermintContract {
  import opened Wrappers
  import opened Msgs
  import opened KvSearch
  import opened ClientSpec

  class SP1ICS07Tendermint {
    const deployment: Deployment
    var clientState: ClientState
    var consensusStateHashes: map<uint32, Digest>
    var verifiedProofs: set<Digest>

    function Storage(): Store
      reads this
    {
      Store(clientState, consensusStateHashes, verifiedProofs)
    }

    constructor (deployment: Deployment, clientState: ClientState, consensusState: Digest)
      ensures this.deployment == deployment
      ensures Storage() == Genesis(clientState, consensusState)
    {
      this.deployment := deployment;
      this.clientState := clientState;
      this.consensusStateHashes := map[clientState.latestHeight.revisionHeight := consensusState];
      this.verifiedProofs := {};
    }

    /* The entry points. */

    method UpdateClient(blockTime: nat, updateMsg: Option<SP1Proof>) returns (r: Result<Returned, Error>)
      modifies this
      ensures Tx(r, Storage()) == Step(deployment, old(Storage()), Event(blockTime, Call.UpdateClient(updateMsg)))
    {
      var snapshot := Storage();
      r := UpdateClientBody(blockTime, updateMsg);
      if r.Err? {
        Revert(snapshot);
      }
    }

    method Membership(blockTime: nat, msg: MsgMembership) returns (r: Result<Returned, Error>)
      modifies this
      ensures Tx(r, Storage()) == Step(deployment, old(Storage()), Event(blockTime, Call.Membership(msg)))
    {
      var snapshot := Storage();
      match msg.proof {
        case None =>
          r := Err(MalformedAbi);
        case Some(Plain(payload)) =>
          r := HandleSP1MembershipProof(msg, payload);
        case Some(WithUpdate(payload)) =>
          r := HandleSP1UpdateClientAndMembership(blockTime, msg, payload);
      }
      if r.Err? {
        Revert(snapshot);
      }
    }

    method SubmitMisbehaviour(blockTime: nat, msg: Option<SP1Proof>) returns (r: Result<Returned, Error>)
      modifies this
      ensures Tx(r, Storage()) == Step(deployment, old(Storage()), Event(blockTime, Call.SubmitMisbehaviour(msg)))
    {
      var snapshot := Storage();
      r := MisbehaviourBody(blockTime, msg);
      if r.Err? {
        Revert(snapshot);
      }
    }

    /** The EVM's part of a revert. */
    method Revert(snapshot: Store)
      modifies this
      ensures Storage() == snapshot
    {
      clientState, consensusStateHashes, verifiedProofs := snapshot.client, snapshot.hashes, snapshot.verified;
    }

    /* The bodies: on success they leave the specified storage, on failure anything. */

    method UpdateClientBody(blockTime: nat, updateMsg: Option<SP1Proof>) returns (r: Result<Returned, Error>)
      modifies this
      ensures var spec := ExecuteUpdate(deployment, old(Storage()), blockTime, updateMsg);
              match r
              case Ok(v) => spec == Ok((v, Storage()))
              case Err(error) => spec == Err(error)
    {
      var p :- Decode(updateMsg);
      :- Need(p.vKey == deployment.updateClientVKey, VerificationKeyMismatch);
      var output :- Decode(deployment.abi.updateClient(p.publicValues));
      :- ValidateUpdate(Storage(), blockTime, output);

      var updateResult := CheckUpdateResult(Storage(), output);
      match updateResult {
        case Update =>
          AddConsensusState(output.newHeight, output.newConsensusState);
        case Misbehaviour =>
          clientState := clientState.(isFrozen := true);
        case NoOp =>
          return Ok(Updated(NoOp));
      }

      :- VerifySP1Proof(p);
      return Ok(Updated(updateResult));
    }

    method HandleSP1MembershipProof(msg: MsgMembership, payload: Option<SP1MembershipProof>)
      returns (r: Result<Returned, Error>)
      modifies this
      ensures var spec := ExecutePlain(deployment, old(Storage()), msg, payload);
              match r
              case Ok(v) => spec == Ok((v, Storage()))
              case Err(error) => spec == Err(error)
    {
      var latest := clientState.latestHeight;
      :- Need(msg.proofHeight.revisionNumber == latest.revisionNumber, ProofHeightMismatch);
      var proof :- Decode(payload);
      :- Need(proof.sp1Proof.vKey == deployment.membershipVKey, VerificationKeyMismatch);
      var output :- Decode(deployment.abi.membership(proof.sp1Proof.publicValues));
      :- Need(1 <= |output.kvPairs| <= 256, LengthIsOutOfRange);

      :- SearchPairs(output.kvPairs, msg.path, msg.value);

      var trusted := proof.trustedConsensusState;
      :- ValidateMembership(Storage(), output.commitmentRoot, msg.proofHeight.revisionHeight, trusted);

      var verdict;
      if |output.kvPairs| == 1 {
        verdict := VerifySP1Proof(proof.sp1Proof);
      } else {
        verdict := VerifySP1ProofCached(proof.sp1Proof);
      }
      :- verdict;
      return Ok(TrustedTimestamp(trusted.timestamp));
    }

    method HandleSP1UpdateClientAndMembership(blockTime: nat, msg: MsgMembership, payload: Option<SP1Proof>)
      returns (r: Result<Returned, Error>)
      modifies this
      ensures var spec := ExecuteWithUpdate(deployment, old(Storage()), blockTime, msg, payload);
              match r
              case Ok(v) => spec == Ok((v, Storage()))
              case Err(error) => spec == Err(error)
    {
      var p :- Decode(payload);
      :- Need(p.vKey == deployment.ucAndMembershipVKey, VerificationKeyMismatch);
      var output :- Decode(deployment.abi.ucAndMembership(p.publicValues));
      :- Need(1 <= |output.kvPairs| <= 256, LengthIsOutOfRange);

      var update := output.updateClientOutput;
      :- Need(msg.proofHeight == update.newHeight, ProofHeightMismatch);
      :- ValidateUpdate(Storage(), blockTime, update);
      var verdict;
      if |output.kvPairs| == 1 {
        verdict := VerifySP1Proof(p);
      } else {
        verdict := VerifySP1ProofCached(p);
      }
      :- verdict;

      var updateResult := CheckUpdateResult(Storage(), update);
      match updateResult {
        case Update =>
          AddConsensusState(msg.proofHeight, update.newConsensusState);
        case Misbehaviour =>
          clientState := clientState.(isFrozen := true);
          return Err(CannotHandleMisbehavior);
        case NoOp =>
      }

      :- SearchPairs(output.kvPairs, msg.path, msg.value);

      // This check cannot fail: the specification of the call does without it.
      var closing := ValidateMembership(
        Storage(), update.newConsensusState.root, update.newHeight.revisionHeight, update.newConsensusState);
      r := match closing
           case Pass => Ok(TrustedTimestamp(update.newConsensusState.timestamp))
           case Fail(error) => Err(error);
    }

    method MisbehaviourBody(blockTime: nat, msg: Option<SP1Proof>) returns (r: Result<Returned, Error>)
      modifies this
      ensures var spec := ExecuteMisbehaviour(deployment, old(Storage()), blockTime, msg);
              match r
              case Ok(v) => spec == Ok((v, Storage()))
              case Err(error) => spec == Err(error)
    {
      var p :- Decode(msg);
      :- Need(p.vKey == deployment.misbehaviourVKey, VerificationKeyMismatch);
      var output :- Decode(deployment.abi.misbehaviour(p.publicValues));
      :- ValidateMisbehaviour(Storage(), blockTime, output);
      :- VerifySP1Proof(p);
      clientState := clientState.(isFrozen := true);
      return Ok(Frozen);
    }

    method AddConsensusState(height: Height, consensusState: ConsensusState)
      modifies this
      ensures consensusStateHashes
              == old(consensusStateHashes)[height.revisionHeight := ConsensusStateHash(consensusState)]
      ensures clientState
              == if height.revisionHeight > old(clientState).latestHeight.revisionHeight
                 then old(clientState).(latestHeight := height) else old(clientState)
      ensures verifiedProofs == old(verifiedProofs)
    {
      if height.revisionHeight > clientState.latestHeight.revisionHeight {
        clientState := clientState.(latestHeight := height);
      }
      consensusStateHashes := consensusStateHashes[height.revisionHeight := ConsensusStateHash(consensusState)];
    }

    method VerifySP1Proof(p: SP1Proof) returns (r: Check<Error>)
      ensures r == Need(deployment.accepts(p), InvalidProof)
    {
      r := Need(deployment.accepts(p), InvalidProof);
    }

    method VerifySP1ProofCached(p: SP1Proof) returns (r: Check<Error>)
      modifies this`verifiedProofs
      ensures r.Pass? <==> ProofHash(p) in old(verifiedProofs) || deployment.accepts(p)
      ensures ProofHash(p) in old(verifiedProofs) ==> verifiedProofs == old(verifiedProofs)
      ensures r.Pass? && ProofHash(p) !in old(verifiedProofs) ==>
                verifiedProofs == old(verifiedProofs) + {ProofHash(p)}
      ensures r.Fail? ==> r.error == InvalidProof && verifiedProofs == old(verifiedProofs)
    {
      if ProofHash(p) in verifiedProofs {
        return Pass;
      }
      r := VerifySP1Proof(p);
      if r.Pass? {
        verifiedProofs := verifiedProofs + {ProofHash(p)};
      }
    }
  }

  /** Feeding a list of transactions to a fresh contract reaches the storage that Run names, and each call
      returns what ResultAt names. */
  method Deploy(d: Deployment, client: ClientState, consensusState: Digest, es: seq<Event>)
    returns (c: SP1ICS07Tendermint, results: seq<Result<Returned, Error>>)
    ensures fresh(c) && c.deployment == d
    ensures c.Storage() == Run(d, Genesis(client, consensusState), es)
    ensures |results| == |es|
    ensures forall i :: 0 <= i < |es| ==> results[i] == ResultAt(d, Genesis(client, consensusState), es, i)
  {
    c := new SP1ICS07Tendermint(d, client, consensusState);
    results := [];
    ghost var g := Genesis(client, consensusState);
    for i := 0 to |es|
      invariant fresh(c) && c.deployment == d
      invariant c.Storage() == Run(d, g, es[..i])
      invariant |results| == i
      invariant forall j :: 0 <= j < i ==> results[j] == ResultAt(d, g, es, j)
    {
      var r;
      match es[i].call {
        case UpdateClient(msg) => r := c.UpdateClient(es[i].blockTime, msg);
        case Membership(msg) => r := c.Membership(es[i].blockTime, msg);
        case SubmitMisbehaviour(msg) => r := c.SubmitMisbehaviour(es[i].blockTime, msg);
      }
      assert es[..i + 1][..i] == es[..i];
      results := results + [r];
    }
    assert es[..|es|] == es;
  }
}
